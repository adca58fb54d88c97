# NowqttGateway serial task, modelled in Dafny

NowqttGateway links sensor nodes on a shared serial line to a Home-Assistant MQTT broker. This
project models the gateway's serial task, `NowqttGateway/src/serial_task.py`, and proves
properties of that model. The modelled parts are:

- **FrameReader**: the reading loop of `start_serial_task`.
  - The byte stream is synchronised on `FF 13 AB` by a three-state matcher. A byte that does not
    match resets the matcher and is not tested again.
  - Next come a length byte, an 8-byte header and `length - 8` payload bytes.
  - The serial link is a finite byte sequence read through a cursor. A read returns at most the
    bytes that remain, so the link's timeout shows up as a short or empty read.
- **HeaderDecoder**: `expand_header_message`. It decodes the MAC as a big-endian integer over
  bytes 0..5, the command type from byte 6, the entity id from byte 7, and the 7-byte MAC+entity key.
- **ConfigExpander**: `expand_sensor_config` and `format_mqtt_rssi_config_topic`. These build the
  discovery configuration of an entity and of its companion signal-strength ("RSSI") entity.
  - Topics are cut and rebuilt with models of Python's `split`, `join` and `replace`.
  - `format_mqtt_rssi_config_topic` is a method with the collect-then-delete loops of the source.
    It is proved equal to a functional description.
- **Registry**: the parts of `NowqttDevices` that the serial task uses. Its source file is not
  part of this model; it appears here as a map from MAC to device, and from entity id to entity.
- **Dispatcher**: the `SerialTask` class.
  - Functions give the effect of each operation on an abstract state: the registry, the
    cooldown map, the frames written to the serial link, and the outside-world events in order.
  - The class holds the same state in fields. Its methods (`ProcessSerialMessage`,
    `ProcessMqttStateMessage`, `ProcessMqttConfigMessage`, `ProcessHeartbeat`,
    `RequestConfigMessage`, `StartSerialTask`) are proved to have exactly those effects.
  - Each of them also keeps a class invariant, `Valid()`: every device has an entity, and every
    frame written is a configuration request for a MAC that has a cooldown entry. The methods
    that can write a request are called with a decoded header: six MAC bytes whose big-endian
    value is the MAC (`WellFormed`).

Exceptions are results, not preconditions. An operation yields either its result or the Python
exception it would raise: `IndexError`, `KeyError(key)`, `TimeoutError`, `JSONDecodeError`, or
`WrongType`, which stands for the `TypeError`/`AttributeError` raised on a value of the wrong JSON
type. `json.loads`, the UTF-8 decoding of the payload and the Influx handler are parameters of
the model.

Behaviour of the code worth knowing, each item backed by a lemma:

- A header read that comes back short (fewer than 8 bytes) is not a timeout. It reaches
  `raw_header[7]` and raises `IndexError` (`Dispatcher.TruncatedHeaderEndsRun`). A short payload
  read is not an error at all.
- The command topic is the message topic plus `om`. Messages carry topics ending in `/c`, so the
  command topic ends in `/com`, not `/configom` (`Dispatcher.NodeConfigRegistration`).
- The companion derivation reads `dev.name`. A template whose `dev` has no `name` makes
  registration raise `KeyError` (`Dispatcher.TemplateWithoutNameRaises`).
- `format_mqtt_rssi_config_topic` parses the raw template again, so `dev` still holds `sut`. It
  then deletes `dev['seconds_until_timeout']`, which raises `KeyError` unless that key is also
  present. Only `JSONDecodeError` is caught, so this exception escapes
  (`Dispatcher.SutWithoutSecondsUntilTimeoutRaises`).
- RESET replaces the registry but keeps the cooldown map (`Dispatcher.ResetClearsRegistry`).
- The synchroniser is not a sliding window. A frame after some noise is found exactly when the
  noise leaves the matcher in state 0 (`FrameReader.FrameAfterNoise`). When the noise leaves it
  part-way through a match, for example after a `0xFF` read in state 0, the frame's pattern is
  skipped (`FrameReader.PartialMatchHidesFrame`). So neither `FF FF 13 AB` nor `FF 13 FF 13 AB`
  synchronises (`FrameReader.OverlappingPatternsMissed`), while `FF FF` before a frame leaves
  state 0 again and the frame is found.

## Model

| member | source | states |
|---|---|---|
| FrameReader.ReadFrame | NowqttGateway/src/serial_task.py:237-257 | One pass of the reading loop equals `ParseFrame`. A frame it returns ends at least 4 bytes past the cursor and within the link, with a header of at most 8 bytes. |
| FrameReader.SyncEndSound | NowqttGateway/src/serial_task.py:239-248 | From a state matching the first `counter` pattern bytes, the matcher ends only right after the bytes `FF 13 AB`, within the link, and no sooner than the pattern could be completed. |
| FrameReader.ParseFrameAdvances | NowqttGateway/src/serial_task.py:239-257 | A frame ends at least 4 bytes past the cursor (pattern and length) and within the link. |
| FrameReader.SkipNoise | NowqttGateway/src/serial_task.py:245-248 | Bytes other than `0xFF` leave the matcher in state 0, so synchronisation after them starts afresh. |
| FrameReader.SyncAtCursor | NowqttGateway/src/serial_task.py:240-248 | From state 0, the pattern at the cursor synchronises exactly three bytes later. |
| FrameReader.SyncEnd | NowqttGateway/src/serial_task.py:239-248 | Definition (no contract) of the synchroniser from match state `counter`: the cursor just after the third pattern byte, or none when the link runs out. |
| FrameReader.Step | NowqttGateway/src/serial_task.py:245-248 | Definition (no contract) of one matcher step: the next pattern byte advances the state, and any other byte resets it to 0. |
| FrameReader.MatchState | NowqttGateway/src/serial_task.py:239-248 | The state after the matcher reads some bytes, or none when they complete the pattern; a state is always below 3. |
| FrameReader.ParseFrame | NowqttGateway/src/serial_task.py:237-257 | Definition (no contract) of one pass of the reading loop: synchronise, then a timeout on a missing or zero length byte, else an 8-byte header read and a `length - 8` payload read. |
| FrameReader.SyncEndAcross | NowqttGateway/src/serial_task.py:239-248 | Reading bytes that do not complete the pattern only moves the matcher to the state `MatchState` gives. |
| FrameReader.NoSyncStartKeepsStateZero | NowqttGateway/src/serial_task.py:245-248 | Noise without `0xFF` leaves the matcher in state 0. |
| FrameReader.PartialMatchMissesPattern | NowqttGateway/src/serial_task.py:245-248 | A pattern read in state 1 or 2 is missed: synchronisation goes on from state 0 after it. |
| FrameReader.SyncAfterNoise | NowqttGateway/src/serial_task.py:239-248 | After noise that does not synchronise, the next pattern is found exactly when the noise leaves state 0, and skipped otherwise. |
| FrameReader.FrameAtSync | NowqttGateway/src/serial_task.py:250-257 | A well-formed frame whose pattern ends where synchronisation ends is read whole, and the cursor stops after its payload. |
| FrameReader.FrameAfterNoise | NowqttGateway/src/serial_task.py:237-257 | From any cursor: noise that leaves the matcher in state 0, then a well-formed frame, then anything. Exactly that header and payload are returned, and the cursor stops after the payload. |
| FrameReader.ParseFrameFollowsSync | NowqttGateway/src/serial_task.py:237-257 | A pass of the reading loop depends only on where synchronisation ends. |
| FrameReader.PartialMatchHidesFrame | NowqttGateway/src/serial_task.py:245-248 | From any cursor: noise that leaves the matcher in state 1 or 2, then the pattern. The pattern is missed, and the pass reads as if the link started right after it. |
| FrameReader.TrailingFFHidesFrame | NowqttGateway/src/serial_task.py:245-248 | One `0xFF` at the start of the link, before a payload-free frame whose header holds no `0xFF`, gives a timeout. |
| FrameReader.OverlappingPatternsMissed | NowqttGateway/src/serial_task.py:245-248 | `FF FF 13 AB` and `FF 13 FF 13 AB` do not synchronise. |
| FrameReader.ZeroLengthIsTimeout | NowqttGateway/src/serial_task.py:250-252 | A length byte of 0, or no length byte, gives a timeout. |
| FrameReader.ShortLengthEmptyPayload | NowqttGateway/src/serial_task.py:254-257 | A length byte below 8 gives an empty payload, not an error. |
| FrameReader.ReadUpTo | NowqttGateway/src/serial_task.py:254-257 | A read of `n` bytes returns the bytes that follow the cursor: at most `n`, at most what remains, exactly `n` when that many remain, and nothing for `n <= 0`. |
| FrameReader.EncodeFrame | NowqttGateway/src/serial_task.py:237-257 | A frame a node sends is 12 bytes longer than its payload. |
| HeaderDecoder.DecodeHeader | NowqttGateway/src/serial_task.py:41-49 | Decoding succeeds exactly when there are at least 8 bytes; otherwise it raises `IndexError`. |
| HeaderDecoder.DecodeHeaderFields | NowqttGateway/src/serial_task.py:41-49 | The MAC is the big-endian value of bytes 0..5 (below 2^48), the command type is byte 6, the entity id is byte 7, and the key is bytes 0..5 then byte 7 (7 bytes). |
| HeaderDecoder.DecodeEncodeHeader | NowqttGateway/src/serial_task.py:41-49 | Decoding an encoded header gives back the MAC, the command type and the entity id. |
| HeaderDecoder.EncodeDecodeHeader | NowqttGateway/src/serial_task.py:44-48 | Re-encoding a decoded 8-byte header gives back the raw bytes. |
| HeaderDecoder.MacAndEntityKeyIdentifiesPair | NowqttGateway/src/serial_task.py:47 | The 7-byte key determines the MAC and the entity id. |
| HeaderDecoder.EncodeHeader | NowqttGateway/src/serial_task.py:41-49 | A header a node sends is 8 bytes. |
| Bytes.BigEndianOfToBigEndian | NowqttGateway/src/serial_task.py:45 | Reading back the big-endian bytes of `n` gives `n`. |
| Bytes.ToBigEndianOfBigEndian | NowqttGateway/src/serial_task.py:45 | The big-endian value of a byte string determines the bytes (round trip). |
| Bytes.BigEndianInjective | NowqttGateway/src/serial_task.py:45 | Two equal-length byte strings with the same big-endian value are equal. |
| Bytes.BigEndian | NowqttGateway/src/serial_task.py:45 | The value of `k` bytes is below 256^k. |
| Bytes.ToBigEndian | NowqttGateway/src/serial_task.py:45 | The encoding of a value has exactly the requested length. |
| Bytes.Pow256 | NowqttGateway/src/serial_task.py:45 | 256^k is positive. |
| Text.Split | NowqttGateway/src/serial_task.py:20 | `split` gives at least one piece, and no piece holds the separator. |
| Text.Join | NowqttGateway/src/serial_task.py:72 | Definition (no contract) of `sep.join(parts)`. Stated by `Text.JoinSplit` and `Text.SplitJoin`. |
| Text.JoinSplit | NowqttGateway/src/serial_task.py:67-72 | Joining the pieces of a split gives the string back. |
| Text.SplitJoin | NowqttGateway/src/serial_task.py:67-72 | Splitting a join of separator-free pieces gives the pieces back. |
| Text.SplitNoSeparator | NowqttGateway/src/serial_task.py:134-135 | A string without the separator splits into itself alone. |
| Text.SplitPrefix | NowqttGateway/src/serial_task.py:134-135 | A separator-free head followed by the separator splits off as the first piece. |
| Text.SplitAppendCount | NowqttGateway/src/serial_task.py:65-67 | Appending text without the separator (`"onfig"`) keeps the number of pieces. |
| Text.JoinLength | NowqttGateway/src/serial_task.py:72 | A join is at least as long as any piece plus its index. |
| Text.JoinLast | NowqttGateway/src/serial_task.py:91 | A join of two or more pieces is the join of all but the last, then the separator, then the last piece. |
| Text.JoinAppend | NowqttGateway/src/serial_task.py:28 | Appending text to a join appends it to the last piece. |
| Text.ReplaceChar | NowqttGateway/src/serial_task.py:35 | `replace` changes every occurrence of the character and nothing else. |
| Text.DropFirst | NowqttGateway/src/serial_task.py:134 | Definition (no contract) of `s[1:]`, which is empty for the empty string. Its use is stated by `ConfigExpander.NodeMessageSplits`. |
| Text.ReplaceEach | NowqttGateway/src/serial_task.py:72 | Replacement piece by piece keeps the number of pieces. |
| Text.ReplaceAbsent | NowqttGateway/src/serial_task.py:72 | Replacing a character that does not occur changes nothing. |
| Text.ReplaceEachOnly | NowqttGateway/src/serial_task.py:72 | Only pieces holding the character change. |
| Text.ReplaceConcat | NowqttGateway/src/serial_task.py:72 | Replacement distributes over concatenation. |
| Text.ReplaceJoin | NowqttGateway/src/serial_task.py:72 | Replacing a non-separator character commutes with joining. |
| Text.SplitReplacedJoin | NowqttGateway/src/serial_task.py:67-72 | Splitting a joined topic after the space replacement gives the replaced pieces. |
| Json.Field | NowqttGateway/src/serial_task.py:31 | Definition (no contract) of `obj[key]`: the value, `KeyError(key)` for a missing key, a type error on a non-object. Its uses are stated by `Json.StringField` and `ConfigExpander.ExpandSensorConfig`. |
| Json.StringField | NowqttGateway/src/serial_task.py:35 | The value at the key is a string, or the error raised on the way. |
| ConfigExpander.ExpandSensorConfig | NowqttGateway/src/serial_task.py:19-38 | Errors come in source order (short topic, non-object, unknown platform, no `dev`), and success happens exactly when the platform is known and `dev.ids` is a string. On success: every template key is kept and only the written keys are added or changed; `unique_id`/`object_id` are the client name; `state_topic` is the topic minus its last character plus `state` when the platform has state; `command_topic` is the topic plus `om` when it has commands; `sut` is popped from `dev` and returned as the timeout, else the default; `availability_topic` is `homeassistant/available/` plus `ids` with spaces replaced. |
| ConfigExpander.DevIds | NowqttGateway/src/serial_task.py:35 | `config["dev"]["ids"]` is a string exactly when the lookups succeed, and it is that value. |
| ConfigExpander.MessageTemplate | NowqttGateway/src/serial_task.py:63 | Definition (no contract) of `json.loads(message.split("\|")[1])` with the exceptions raised on the way. |
| ConfigExpander.MessageTemplateOfParts | NowqttGateway/src/serial_task.py:63 | A message without `\|` raises `IndexError`. Otherwise the parsed text is what follows the first `\|`, cut at any later `\|`, so a template that holds `\|` is cut short. |
| ConfigExpander.MessageTopic | NowqttGateway/src/serial_task.py:134 | Definition (no contract) of `"homeassistant" + message.split("\|")[0][1:]`. Its shape for node messages is stated by `ConfigExpander.NodeMessageSplits`. |
| ConfigExpander.RssiSegments | NowqttGateway/src/serial_task.py:67-70 | Segments 1..3 become `sensor`, `rssi`, `<ids>_rssi`; the others are unchanged. |
| ConfigExpander.RssiTopicLength | NowqttGateway/src/serial_task.py:91 | The companion topic has at least 6 characters, so cutting 6 is defined. |
| ConfigExpander.CompanionFields | NowqttGateway/src/serial_task.py:76-94 | Definition (no contract) of the fields left and set once every key but `dev` is gone. Stated by `ConfigExpander.CompanionFieldsShape`. |
| ConfigExpander.RssiConfig | NowqttGateway/src/serial_task.py:62-98 | Definition (no contract) of the companion topic and configuration, or the exception raised. Stated by `ConfigExpander.RssiConfigOutcome`, `ConfigExpander.RssiConfigTopic` and `ConfigExpander.CompanionTopics`. |
| ConfigExpander.FormatMqttRssiConfigTopic | NowqttGateway/src/serial_task.py:62-98 | The collect-then-delete loops and the field assignments give exactly `RssiConfig`: the topic and configuration, or the exception raised. |
| ConfigExpander.CompanionFieldsShape | NowqttGateway/src/serial_task.py:76-94 | Only `dev` survives from the template, plus the fixed fields: `name` is `dev.name` plus ` RSSI`; `unique_id`/`object_id` are the client name; signal_strength, measurement, dBm; the given availability topic; `state_topic` is the topic minus 6 characters plus `state`. A `dev` holding `sut` without `seconds_until_timeout` raises `KeyError`. |
| ConfigExpander.RssiConfigOutcome | NowqttGateway/src/serial_task.py:62-98 | The derivation succeeds exactly when the template parses, the topic has 4 segments, `dev.ids` and `dev.name` are strings, and `sut` is absent or paired with `seconds_until_timeout`. With `sut` alone it raises `KeyError("seconds_until_timeout")`. |
| ConfigExpander.RssiConfigTopic | NowqttGateway/src/serial_task.py:65-74 | The companion topic is the rewritten segments joined with spaces replaced; the client name `<ids>_rssi` is taken before the replacement. |
| ConfigExpander.RssiTopicResplits | NowqttGateway/src/serial_task.py:67-72 | When `ids` has no `/`, the companion topic splits back into the rewritten segments: platform `sensor`, node `rssi`. |
| ConfigExpander.ExpandedTopics | NowqttGateway/src/serial_task.py:25-28 | For `homeassistant/<platform>/<node>/<entity>/c`, the state topic is `.../<entity>/state` and the command topic is `.../<entity>/com`. |
| ConfigExpander.NodeMessageSplits | NowqttGateway/src/serial_task.py:134-136 | A message `<x>/<platform>/<node>/<entity>/c\|<template>` splits into its two parts; its topic is `homeassistant/<platform>/<node>/<entity>/c`, and its configuration topic ends in `/config`. |
| ConfigExpander.ConfigToState | NowqttGateway/src/serial_task.py:91 | Cutting `config` off a topic and appending `state` gives its `/state` sibling. |
| ConfigExpander.CompanionTopicSegments | NowqttGateway/src/serial_task.py:67-72 | Only the `<ids>_rssi` segment has spaces to replace. |
| ConfigExpander.CompanionTopicOfNode | NowqttGateway/src/serial_task.py:65-91 | The companion topic is `homeassistant/sensor/rssi/<ids>_rssi/config` and its state topic `.../state`. |
| ConfigExpander.CompanionTopics | NowqttGateway/src/serial_task.py:62-98 | For a well-formed node message, the derivation succeeds with those topics and client name `<ids>_rssi`. |
| Registry.DeviceKnown | NowqttGateway/src/serial_task.py:169 | Definition (no contract) of `has_device(mac)`: the MAC is registered. |
| Registry.EntityKnown | NowqttGateway/src/serial_task.py:121 | Definition (no contract) of `has_device_and_entity(mac, entity_id)`: the MAC is registered with that entity. |
| Registry.WithLastSeen | NowqttGateway/src/serial_task.py:193-194 | Refreshing sets the device's last-seen time and changes no entity and no other device. |
| Registry.WithElement | NowqttGateway/src/serial_task.py:158-164 | Adding an element registers the pair. A new device starts with that one entity and last-seen `now`; a known device gains or replaces the entity; other devices are unchanged. |
| Registry.WithElementKeepsEntities | NowqttGateway/src/serial_task.py:158-164 | Adding an element keeps every device with at least one entity. |
| Registry.NowqttDevices.constructor | NowqttGateway/src/serial_task.py:105 | A new registry is empty. |
| Registry.NowqttDevices.SetLastSeenTimestampToNow | NowqttGateway/src/serial_task.py:194 | The registry becomes `WithLastSeen` of the old one. |
| Registry.NowqttDevices.AddElement | NowqttGateway/src/serial_task.py:158-164 | The registry becomes `WithElement` of the old one. |
| Dispatcher.SerialTask.constructor | NowqttGateway/src/serial_task.py:101-107 | Empty registry, empty cooldown map, nothing written, and the invariant holds. |
| Dispatcher.SerialTask.RequestConfigMessage | NowqttGateway/src/serial_task.py:109-118 | Records `now` for the MAC and writes `mac ++ [0, RESET, 0] ++ "\n\n\n"`; the registry is untouched. For a decoded header it keeps `Valid()`. |
| Dispatcher.SerialTask.ProcessMqttStateMessage | NowqttGateway/src/serial_task.py:120-131 | The new state is `StateMessage` of the old one. For a decoded header it keeps `Valid()`. |
| Dispatcher.SerialTask.ProcessMqttConfigMessage | NowqttGateway/src/serial_task.py:133-166 | The new state and the escaping exception are `ConfigMessage` of the old state. It keeps `Valid()`. |
| Dispatcher.SerialTask.ProcessHeartbeat | NowqttGateway/src/serial_task.py:168-172 | The new state is `Heartbeat` of the old one. For a decoded header it keeps `Valid()`. |
| Dispatcher.SerialTask.ProcessSerialMessage | NowqttGateway/src/serial_task.py:186-214 | The new state and the escaping exception are `SerialMessage` of the old state, and the invariant is kept. |
| Dispatcher.SerialTask.StartSerialTask | NowqttGateway/src/serial_task.py:237-259 | The loop ends with the exception and state that `RunFrom` gives, and keeps the invariant. |
| Dispatcher.ControlFrame | NowqttGateway/src/serial_task.py:112-116 | Definition (no contract) of the request bytes: the MAC, `0, RESET, 0`, `\n\n\n`. Stated by `Dispatcher.ControlFrameAddressesNode`. |
| Dispatcher.CooldownOver | NowqttGateway/src/serial_task.py:126-131 | Definition (no contract) of the cooldown gate: no entry for the MAC, or at least the threshold since it. |
| Dispatcher.RequestConfig | NowqttGateway/src/serial_task.py:109-118 | Definition (no contract) of `request_config_message`: record `now` for the MAC and write the request. |
| Dispatcher.StateMessage | NowqttGateway/src/serial_task.py:120-131 | Definition (no contract) of `process_mqtt_state_message`: publish for a known pair, else request when the gate is open. Stated by `Dispatcher.StateMessageRecovery`. |
| Dispatcher.Heartbeat | NowqttGateway/src/serial_task.py:168-172 | Definition (no contract) of `process_heartbeat`: publish for a known device, else request. Stated by `Dispatcher.HeartbeatRecovery`. |
| Dispatcher.Caught | NowqttGateway/src/serial_task.py:165-166 | Definition (no contract) of the `except JSONDecodeError` handler: that exception is dropped and the others escape. |
| Dispatcher.ConfigMessageEffect | NowqttGateway/src/serial_task.py:133-166 | Definition (no contract) of `process_mqtt_config_message` in source order. Stated by `Dispatcher.ConfigMessageOutcomes`, `Dispatcher.RegisteredEntity` and `Dispatcher.NodeConfigRegistration`. |
| Dispatcher.ConfigMessage | NowqttGateway/src/serial_task.py:133-166 | Definition (no contract) of the effect applied to the state: register, ignore or raise. |
| Dispatcher.Touched | NowqttGateway/src/serial_task.py:192-194 | Definition (no contract) of the last-seen refresh of a known device. |
| Dispatcher.SerialMessage | NowqttGateway/src/serial_task.py:186-214 | Definition (no contract) of `process_serial_message`: decode, refresh, then the `elif` chain. Stated by `Dispatcher.SerialMessagePreservesConsistent` and the lemmas below. |
| Dispatcher.RunFrom | NowqttGateway/src/serial_task.py:237-259 | Definition (no contract) of the reading loop: frames are parsed and dispatched until an exception escapes, with a timeout at the latest. |
| Dispatcher.Consistent | NowqttGateway/src/serial_task.py:101-118 | Definition (no contract) of the invariant: every device has an entity, and every frame written is a request for a MAC with a cooldown entry. |
| Dispatcher.DecodedHeaderWellFormed | NowqttGateway/src/serial_task.py:44-45 | A decoded header's MAC bytes are 6 and their big-endian value is its MAC. |
| Dispatcher.ControlFrameAddressesNode | NowqttGateway/src/serial_task.py:112-116 | A request is 12 bytes. Its first 6 bytes decode to the node's MAC, and the rest are `0, RESET, 0, 10, 10, 10`. |
| Dispatcher.RequestConfigConsistent | NowqttGateway/src/serial_task.py:109-116 | A request keeps the invariant: every frame written is a request whose MAC has a cooldown entry. |
| Dispatcher.TouchedConsistent | NowqttGateway/src/serial_task.py:193-194 | The last-seen refresh keeps the invariant. |
| Dispatcher.ConfigMessageConsistent | NowqttGateway/src/serial_task.py:133-166 | A configuration message keeps the invariant. |
| Dispatcher.SerialMessagePreservesConsistent | NowqttGateway/src/serial_task.py:186-214 | Every frame keeps the invariant. |
| Dispatcher.StateMessageRecovery | NowqttGateway/src/serial_task.py:120-131 | A known pair publishes and sends nothing. For an unknown pair, a request is sent exactly when the MAC has no cooldown entry or `now - cooldown[mac] >= threshold`; the request sets `cooldown[mac] := now` and writes the control frame; with the gate closed nothing changes. |
| Dispatcher.CooldownSpacesRequests | NowqttGateway/src/serial_task.py:120-131 | Two STATE frames for an unknown pair: the first always requests, and the second requests only if the threshold has passed. |
| Dispatcher.HeartbeatRecovery | NowqttGateway/src/serial_task.py:168-172 | A known device gets the value published to its RSSI entity; an unknown one gets a request whatever the cooldown map holds. |
| Dispatcher.ShortHeaderRaises | NowqttGateway/src/serial_task.py:187 | A header under 8 bytes raises `IndexError` before any change. |
| Dispatcher.LastSeenRefreshedOnlyWhenKnown | NowqttGateway/src/serial_task.py:192-214 | Except on RESET, a known device's last-seen time becomes `now`. An unknown MAC becomes known only through CONFIG, and other devices are unchanged. |
| Dispatcher.ResetClearsRegistry | NowqttGateway/src/serial_task.py:196-199 | RESET disconnects everything and leaves an empty registry. The cooldown map and the frames written are kept. |
| Dispatcher.ResetForgetsDevices | NowqttGateway/src/serial_task.py:196-205 | After RESET, a STATE frame from a formerly known device is treated as unknown and requests once the gate is open. |
| Dispatcher.UnknownCommandOnlyRefreshes | NowqttGateway/src/serial_task.py:192-214 | An unknown command type only refreshes last-seen. |
| Dispatcher.ConfigMessageOutcomes | NowqttGateway/src/serial_task.py:133-166 | No `\|` or fewer than 4 topic segments raise `IndexError`; an unparsable template is dropped; a known pair is never registered again; no `JSONDecodeError` escapes. |
| Dispatcher.RegisteredEntity | NowqttGateway/src/serial_task.py:139-164 | A registered entity holds the expanded configuration and timeout. It subscribes to `homeassistant/status`, plus the command topic exactly when the platform has commands. Its configuration topic is the message topic plus `onfig`, and its companion comes from the same message. |
| Dispatcher.SutWithoutSecondsUntilTimeoutRaises | NowqttGateway/src/serial_task.py:93-94 | A CONFIG frame for an unknown pair whose template has `dev.sut` without `seconds_until_timeout` raises `KeyError` and registers nothing. |
| Dispatcher.SutWithoutSecondsUntilTimeoutEffect | NowqttGateway/src/serial_task.py:139-166 | For an unknown pair whose expanded template has `dev.sut` without `seconds_until_timeout`, the configuration handler raises `KeyError("seconds_until_timeout")`. |
| Dispatcher.SerialMessageNoDecodeError | NowqttGateway/src/serial_task.py:165-166 | A frame raises `JSONDecodeError` only through the Influx handler. |
| Dispatcher.RunEndsWithoutDecodeError | NowqttGateway/src/serial_task.py:238-259 | If the Influx handler never raises `JSONDecodeError`, the loop never ends with one. |
| Dispatcher.TruncatedHeaderEndsRun | NowqttGateway/src/serial_task.py:254-259 | A frame cut short inside its header ends the loop with `IndexError` and leaves the state unchanged. |
| Dispatcher.NodeConfigRegistration | NowqttGateway/src/serial_task.py:133-166 | For `<x>/<platform>/<node>/<entity>/c\|<template>` with state and command, the registered topics are: configuration `.../config`, state `.../state`, command `.../com` (subscribed), availability `homeassistant/available/<ids>`, and companion `homeassistant/sensor/rssi/<ids>_rssi/config` and `.../state`. The timeout is the default. |
| Dispatcher.TemplateWithoutNameRaises | NowqttGateway/src/serial_task.py:84 | A template whose `dev` has no `name` raises `KeyError("name")` from the companion step: nothing is registered. |

## Left out

- Serial port access: reads come from a byte sequence and a cursor, and writes go to a list of frames. `reset_input_buffer` (line 233) is not modelled.
- The UTF-8 decoding with `errors='ignore'` and `strip()` (line 257) is a parameter, `Env.decode`.
- JSON parsing is a parameter, `Env.parse`. JSON numbers are integers here, and dictionary key order is not modelled.
- The Influx handler (lines 174-184) is a parameter that either writes (an `InfluxWrite` event) or raises. The point construction and the client call are not modelled.
- `process_serial_log_message` (lines 52-59) becomes a `LogLine` event. The wall-clock formatting and the file append are not modelled.
- `print` and `logging` calls have no effect on state and are not modelled.
- The availability thread, `atexit` registration and `disconnect_all_mqtt_clients` (lines 216-230) concern concurrency and process lifetime, and are not modelled.
- `NowqttDevices` (nowqtt_device_tree) is not part of this model beyond the operations the serial task calls. MQTT publishing and disconnection are events. `get_entity` is folded into `PublishState`.
- `time.time()` is one integer time per frame (`now`, or `clock(k)` for frame `k`). The source reads the clock separately at lines 110 and 128, and the model uses the same value for both. `add_element` is assumed to stamp a new device with that time.
- Exception classes: `TypeError` and `AttributeError` are one outcome, `WrongType`. A `KeyError` is identified only by its string key.
- Aliasing at lines 112-115, where the header's MAC bytearray is extended in place, is modelled by value. That header is not read again afterwards.
- `expand_sensor_config` and `format_mqtt_rssi_config_topic` mutate the parsed dictionary in place. The model treats the dictionary as a value, because no other reference to it is read.
- `Dispatcher.RunEndsWithoutDecodeError`: assumes the Influx handler never raises `JSONDecodeError`. The source's handler can, at line 175, and that exception would end the loop.
- The serial link is finite. An exhausted link stands for the link's read timeout, and a blocking read that eventually delivers more bytes is not distinguished from one that has them already.
