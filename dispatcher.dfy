/**
 * The serial task (`SerialTask`): per-frame dispatch on the command type, the cooldown-gated
 * request for a configuration from an unknown node, registration of entities from
 * configuration messages, and the reading loop of `start_serial_task`.
 *
 * The functions below give each operation's effect on an abstract `TaskState`; the class
 * `SerialTask` holds the same state in fields and its methods are proved to have exactly
 * those effects. Effects on the outside world (control frames written to the serial link,
 * MQTT publishes, disconnections, Influx writes and log lines) are recorded in order.
 */
module Dispatcher {
  import opened Bytes
  import opened Json
  import opened Text
  import opened HeaderDecoder
  import opened FrameReader
  import opened ConfigExpander
  import opened Registry

  /** The command-type values of `SerialCommands`. */
  datatype Commands = Commands(reset: byte, influx: byte, state: byte, config: byte, log: byte, heartbeat: byte)

  predicate Distinct(c: Commands)
  {
    |{c.reset, c.influx, c.state, c.config, c.log, c.heartbeat}| == 6
  }

  /** The gateway's configuration and the foreign code the serial task relies on. */
  datatype Env = Env(
    commands: Commands,
    platforms: map<string, Capability>,     // `platforms`: capability per platform name
    defaultTimeout: Json,                   // `default_seconds_until_timeout`
    cooldownThreshold: int,                 // `cooldown_between_config_request_on_unknown_sensor`
    parse: string -> Parsed,                // `json.loads`
    decode: seq<byte> -> string,            // UTF-8 decoding ignoring errors, then `strip()`
    influx: string -> Option<Exception>)    // `process_serial_influx_message`: None once written

  /** What the serial task does to the outside world, besides writing to the serial link. */
  datatype Event =
    | PublishState(mac: nat, entityId: byte, payload: string)  // entity.mqtt_publish(message)
    | PublishRssi(mac: nat, value: int)                        // rssi_entity.mqtt_publish(value)
    | DisconnectAll                                            // mqtt_disconnect_all()
    | InfluxWrite(payload: string)                             // a point written to Influx
    | LogLine(payload: string)                                 // a line appended to the log file

  /** The serial task's state: registry, request cooldown per MAC, frames written, events. */
  datatype TaskState = TaskState(
    devices: Devices,
    cooldown: map<nat, int>,
    serialOut: seq<seq<byte>>,
    events: seq<Event>)

  /** A state after a step, and the exception that escaped it, if any. */
  datatype StepResult = StepResult(state: TaskState, raised: Option<Exception>)

  const Newlines: seq<byte> := [10, 10, 10]

  /** The request for a configuration sent to a node: its MAC, then `0, RESET, 0`, then `\n\n\n`. */
  function ControlFrame(macBytes: seq<byte>, reset: byte): seq<byte>
  {
    macBytes + [0, reset, 0] + Newlines
  }

  /** A header as decoding produces it: six MAC bytes whose big-endian value is `mac`. */
  predicate WellFormed(h: Header)
  {
    |h.macBytes| == 6 && h.mac == BigEndian(h.macBytes)
  }

  lemma DecodedHeaderWellFormed(raw: seq<byte>)
    requires |raw| >= 8
    ensures WellFormed(DecodeHeader(raw).value)
  {
  }

  /** A request addresses the node it is sent to: 12 bytes, the first six being its MAC. */
  lemma ControlFrameAddressesNode(h: Header, reset: byte)
    requires WellFormed(h)
    ensures var f := ControlFrame(h.macBytes, reset);
      |f| == 12 && f[..6] == h.macBytes && BigEndian(f[..6]) == h.mac
      && f[6..] == [0, reset, 0, 10, 10, 10]
  {
    var f := ControlFrame(h.macBytes, reset);
    assert f[..6] == h.macBytes;
  }

  /** The cooldown gate: no request for this MAC yet, or the last one at least `threshold` ago. */
  predicate CooldownOver(cooldown: map<nat, int>, mac: nat, now: int, threshold: int)
  {
    mac !in cooldown || now - cooldown[mac] >= threshold
  }

  /** `request_config_message(header)` at time `now`. */
  function RequestConfig(s: TaskState, h: Header, now: int, reset: byte): TaskState
  {
    s.(cooldown := s.cooldown[h.mac := now], serialOut := s.serialOut + [ControlFrame(h.macBytes, reset)])
  }

  /** `process_mqtt_state_message(message, header)` at time `now`. */
  function StateMessage(s: TaskState, message: string, h: Header, now: int, env: Env): TaskState
  {
    if EntityKnown(s.devices, h.mac, h.entityId) then
      s.(events := s.events + [PublishState(h.mac, h.entityId, message)])
    else if CooldownOver(s.cooldown, h.mac, now, env.cooldownThreshold) then
      RequestConfig(s, h, now, env.commands.reset)
    else
      s
  }

  /** `process_heartbeat(header, value)` at time `now`. */
  function Heartbeat(s: TaskState, h: Header, value: int, now: int, env: Env): TaskState
  {
    if DeviceKnown(s.devices, h.mac) then s.(events := s.events + [PublishRssi(h.mac, value)])
    else RequestConfig(s, h, now, env.commands.reset)
  }

  /** What a configuration message does to the registry. */
  datatype ConfigEffect = Register(entity: Entity) | Ignore | Raise(error: Exception)

  /** An exception that the `except JSONDecodeError` handler turns into doing nothing. */
  function Caught(e: Exception): ConfigEffect
  {
    if e == JsonDecodeError then Ignore else Raise(e)
  }

  /**
   * The effect of `process_mqtt_config_message(message, header)`, where `known` says whether the
   * (MAC, entity) pair is registered: split the message at `|`, take the client name from topic
   * segment 3, parse and expand the template, and for an unknown pair derive the subscriptions
   * and the companion configuration.
   */
  function ConfigMessageEffect(message: string, known: bool, env: Env): ConfigEffect
  {
    var parts := Split(message, '|');
    var topic := MessageTopic(message);
    var segs := Split(topic, '/');
    if |parts| < 2 || |segs| < 4 then Raise(IndexError)
    else match env.parse(parts[1])
      case DecodeError => Ignore
      case Parsed(template) =>
        match ExpandSensorConfig(template, segs[3], topic, env.platforms, env.defaultTimeout)
        case Err(e) => Caught(e)
        case Ok((config, timeout)) =>
          if known then Ignore
          else
            var subscriptions := ["homeassistant/status"]
              + (if env.platforms[segs[1]].command then [config["command_topic"].s] else []);
            match RssiConfig(message, config["availability_topic"].s, env.parse)
            case Err(e) => Caught(e)
            case Ok((rssiTopic, rssiConfig)) =>
              Register(Entity(config, subscriptions, topic + "onfig", rssiConfig, rssiTopic, timeout))
  }

  /** `process_mqtt_config_message(message, header)` at time `now`. */
  function ConfigMessage(s: TaskState, message: string, h: Header, now: int, env: Env): StepResult
  {
    match ConfigMessageEffect(message, EntityKnown(s.devices, h.mac, h.entityId), env)
    case Register(entity) => StepResult(s.(devices := WithElement(s.devices, h.mac, h.entityId, entity, now)), None)
    case Ignore => StepResult(s, None)
    case Raise(e) => StepResult(s, Some(e))
  }

  /** The last-seen refresh done for a known device before dispatch. */
  function Touched(s: TaskState, h: Header, now: int): TaskState
  {
    if DeviceKnown(s.devices, h.mac) then s.(devices := WithLastSeen(s.devices, h.mac, now)) else s
  }

  /** `process_serial_message(message, raw_header)` at time `now`. */
  function SerialMessage(s: TaskState, message: string, rawHeader: seq<byte>, now: int, env: Env): StepResult
  {
    match DecodeHeader(rawHeader)
    case Err(e) => StepResult(s, Some(e))
    case Ok(h) =>
      var t := Touched(s, h, now);
      var c := env.commands;
      if h.commandType == c.reset then
        StepResult(t.(devices := map[], events := t.events + [DisconnectAll]), None)
      else if h.commandType == c.influx then
        match env.influx(message)
        case None => StepResult(t.(events := t.events + [InfluxWrite(message)]), None)
        case Some(e) => StepResult(t, Some(e))
      else if h.commandType == c.state then
        StepResult(StateMessage(t, message, h, now, env), None)
      else if h.commandType == c.config then
        ConfigMessage(t, message, h, now, env)
      else if h.commandType == c.log then
        StepResult(t.(events := t.events + [LogLine(message)]), None)
      else if h.commandType == c.heartbeat then
        StepResult(Heartbeat(t, h, 10, now, env), None)
      else
        StepResult(t, None)
  }

  /**
   * The reading loop of `start_serial_task` from cursor `pos`: frames are read and dispatched
   * until an exception escapes (a timeout at the latest); `clock(k)` is the time of frame `k`.
   */
  function RunFrom(s: TaskState, src: seq<byte>, pos: nat, frame: nat, clock: nat -> int, env: Env)
    : (TaskState, Exception)
    requires pos <= |src|
    decreases |src| - pos
  {
    match ParseFrame(src, pos)
    case Timeout => (s, TimeoutError)
    case Frame(header, payload, next) =>
      ParseFrameAdvances(src, pos);
      var r := SerialMessage(s, env.decode(payload), header, clock(frame), env);
      if r.raised.Some? then (r.state, r.raised.value)
      else RunFrom(r.state, src, next, frame + 1, clock, env)
  }

  /** A frame written to the serial link is a configuration request. */
  predicate IsConfigRequest(f: seq<byte>, reset: byte)
  {
    |f| == 12 && f[6..] == [0, reset, 0] + Newlines
  }

  /**
   * What the serial task keeps true: every device has an entity, and every frame written is a
   * configuration request for a MAC that has a cooldown entry.
   */
  predicate Consistent(s: TaskState, reset: byte)
  {
    && EveryDeviceHasEntity(s.devices)
    && forall i :: 0 <= i < |s.serialOut| ==>
         IsConfigRequest(s.serialOut[i], reset) && BigEndian(s.serialOut[i][..6]) in s.cooldown
  }

  class SerialTask {
    const env: Env
    var nowqttDevices: NowqttDevices
    var cooldown: map<nat, int>
    var serialOut: seq<seq<byte>>
    var events: seq<Event>

    function State(): TaskState
      reads this, nowqttDevices
    {
      TaskState(nowqttDevices.devices, cooldown, serialOut, events)
    }

    predicate Valid()
      reads this, nowqttDevices
    {
      Consistent(State(), env.commands.reset)
    }

    /** `SerialTask(...)`: an empty registry, no cooldown entries, nothing written. */
    constructor (env: Env)
      ensures this.env == env
      ensures State() == TaskState(map[], map[], [], [])
      ensures Valid()
    {
      this.env := env;
      nowqttDevices := new NowqttDevices();
      cooldown := map[];
      serialOut := [];
      events := [];
    }

    method RequestConfigMessage(header: Header, now: int)
      requires Valid() && WellFormed(header)
      modifies this
      ensures Valid()
      ensures nowqttDevices == old(nowqttDevices)
      ensures State() == RequestConfig(old(State()), header, now, env.commands.reset)
    {
      RequestConfigConsistent(State(), header, now, env.commands.reset);
      cooldown := cooldown[header.mac := now];
      var resetMessage := header.macBytes + [0, env.commands.reset, 0];
      serialOut := serialOut + [resetMessage + Newlines];
    }

    method ProcessMqttStateMessage(message: string, header: Header, now: int)
      requires Valid() && WellFormed(header)
      modifies this
      ensures Valid()
      ensures nowqttDevices == old(nowqttDevices)
      ensures State() == StateMessage(old(State()), message, header, now, env)
    {
      if nowqttDevices.HasDeviceAndEntity(header.mac, header.entityId) {
        events := events + [PublishState(header.mac, header.entityId, message)];
      } else if header.mac in cooldown {
        if now - cooldown[header.mac] >= env.cooldownThreshold {
          RequestConfigMessage(header, now);
        }
      } else {
        RequestConfigMessage(header, now);
      }
    }

    method ProcessMqttConfigMessage(message: string, header: Header, now: int) returns (raised: Option<Exception>)
      requires Valid()
      modifies this, nowqttDevices
      ensures Valid()
      ensures nowqttDevices == old(nowqttDevices)
      ensures StepResult(State(), raised) == ConfigMessage(old(State()), message, header, now, env)
    {
      ConfigMessageConsistent(State(), message, header, now, env);
      ghost var known := nowqttDevices.HasDeviceAndEntity(header.mac, header.entityId);
      ghost var effect := ConfigMessageEffect(message, known, env);
      var parts := Split(message, '|');
      var topic := MessageTopic(message);
      if |parts| < 2 {
        return Some(IndexError);
      }
      var payload := parts[1];
      var segs := Split(topic, '/');
      if |segs| < 4 {
        return Some(IndexError);
      }
      var clientName := segs[3];
      var parsed := env.parse(payload);
      if parsed.DecodeError? {
        assert effect == Ignore;
        return None;
      }
      var expanded := ExpandSensorConfig(parsed.value, clientName, topic, env.platforms, env.defaultTimeout);
      if expanded.Err? {
        assert effect == Caught(expanded.error);
        return if expanded.error == JsonDecodeError then None else Some(expanded.error);
      }
      var (config, timeout) := expanded.value;
      if !nowqttDevices.HasDeviceAndEntity(header.mac, header.entityId) {
        var subscriptions := ["homeassistant/status"];
        if env.platforms[segs[1]].command {
          subscriptions := subscriptions + [config["command_topic"].s];
        }
        var rssi := FormatMqttRssiConfigTopic(message, config["availability_topic"].s, env.parse);
        if rssi.Err? {
          assert effect == Caught(rssi.error);
          return if rssi.error == JsonDecodeError then None else Some(rssi.error);
        }
        var (rssiTopic, rssiConfig) := rssi.value;
        var entity := Entity(config, subscriptions, topic + "onfig", rssiConfig, rssiTopic, timeout);
        assert effect == Register(entity);
        nowqttDevices.AddElement(header.mac, header.entityId, entity, now);
      } else {
        assert effect == Ignore;
      }
      raised := None;
    }

    method ProcessHeartbeat(header: Header, message: int, now: int)
      requires Valid() && WellFormed(header)
      modifies this
      ensures Valid()
      ensures nowqttDevices == old(nowqttDevices)
      ensures State() == Heartbeat(old(State()), header, message, now, env)
    {
      if nowqttDevices.HasDevice(header.mac) {
        events := events + [PublishRssi(header.mac, message)];
      } else {
        RequestConfigMessage(header, now);
      }
    }

    method ProcessSerialMessage(message: string, rawHeader: seq<byte>, now: int) returns (raised: Option<Exception>)
      requires Valid()
      modifies this, nowqttDevices
      ensures Valid()
      ensures nowqttDevices == old(nowqttDevices) || fresh(nowqttDevices)
      ensures StepResult(State(), raised) == SerialMessage(old(State()), message, rawHeader, now, env)
    {
      SerialMessagePreservesConsistent(State(), message, rawHeader, now, env);
      var decoded := DecodeHeader(rawHeader);
      if decoded.Err? {
        return Some(decoded.error);
      }
      var header := decoded.value;
      DecodedHeaderWellFormed(rawHeader);
      TouchedConsistent(State(), header, now, env.commands.reset);
      raised := None;
      if nowqttDevices.HasDevice(header.mac) {
        nowqttDevices.SetLastSeenTimestampToNow(header.mac, now);
      }
      var c := env.commands;
      if header.commandType == c.reset {
        events := events + [DisconnectAll];
        nowqttDevices := new NowqttDevices();
      } else if header.commandType == c.influx {
        raised := env.influx(message);
        if raised.None? {
          events := events + [InfluxWrite(message)];
        }
      } else if header.commandType == c.state {
        ProcessMqttStateMessage(message, header, now);
      } else if header.commandType == c.config {
        raised := ProcessMqttConfigMessage(message, header, now);
      } else if header.commandType == c.log {
        events := events + [LogLine(message)];
      } else if header.commandType == c.heartbeat {
        ProcessHeartbeat(header, 10, now);
      }
    }

    /**
     * The reading loop of `start_serial_task` over the bytes `src`: it returns the exception
     * that ends it, with the state that `RunFrom` gives.
     */
    method StartSerialTask(src: seq<byte>, clock: nat -> int) returns (raised: Exception)
      requires Valid()
      modifies this, nowqttDevices
      ensures Valid()
      ensures (State(), raised) == RunFrom(old(State()), src, 0, 0, clock, env)
    {
      var pos := 0;
      var frame := 0;
      while true
        invariant pos <= |src|
        invariant Valid()
        invariant RunFrom(State(), src, pos, frame, clock, env) == RunFrom(old(State()), src, 0, 0, clock, env)
        invariant nowqttDevices == old(nowqttDevices) || fresh(nowqttDevices)
        decreases |src| - pos
      {
        var read := ReadFrame(src, pos);
        if read.Timeout? {
          return TimeoutError;
        }
        var message := env.decode(read.payload);
        var outcome := ProcessSerialMessage(message, read.header, clock(frame));
        if outcome.Some? {
          return outcome.value;
        }
        pos := read.next;
        frame := frame + 1;
      }
    }
  }

  /** A configuration request keeps `Consistent` for a decoded header. */
  lemma RequestConfigConsistent(s: TaskState, h: Header, now: int, reset: byte)
    requires Consistent(s, reset) && WellFormed(h)
    ensures Consistent(RequestConfig(s, h, now, reset), reset)
  {
    ControlFrameAddressesNode(h, reset);
  }

  /** The last-seen refresh keeps every device with an entity. */
  lemma TouchedConsistent(s: TaskState, h: Header, now: int, reset: byte)
    requires Consistent(s, reset)
    ensures Consistent(Touched(s, h, now), reset)
  {
  }

  /** A configuration message keeps `Consistent`. */
  lemma ConfigMessageConsistent(s: TaskState, message: string, h: Header, now: int, env: Env)
    requires Consistent(s, env.commands.reset)
    ensures Consistent(ConfigMessage(s, message, h, now, env).state, env.commands.reset)
  {
    var e := ConfigMessageEffect(message, EntityKnown(s.devices, h.mac, h.entityId), env);
    if e.Register? {
      WithElementKeepsEntities(s.devices, h.mac, h.entityId, e.entity, now);
    }
  }

  /** The serial task keeps `Consistent` through every frame. */
  lemma SerialMessagePreservesConsistent(s: TaskState, message: string, rawHeader: seq<byte>, now: int, env: Env)
    requires Consistent(s, env.commands.reset)
    ensures Consistent(SerialMessage(s, message, rawHeader, now, env).state, env.commands.reset)
  {
    if |rawHeader| >= 8 {
      var h := DecodeHeader(rawHeader).value;
      var reset := env.commands.reset;
      DecodedHeaderWellFormed(rawHeader);
      var t := Touched(s, h, now);
      TouchedConsistent(s, h, now, reset);
      var c := env.commands;
      if h.commandType == c.reset {
      } else if h.commandType == c.influx {
      } else if h.commandType == c.state {
        if !EntityKnown(t.devices, h.mac, h.entityId) {
          RequestConfigConsistent(t, h, now, reset);
        }
      } else if h.commandType == c.config {
        ConfigMessageConsistent(t, message, h, now, env);
      } else if h.commandType == c.log {
      } else if h.commandType == c.heartbeat {
        RequestConfigConsistent(t, h, now, reset);
      }
    }
  }

  /**
   * A STATE frame for a known (MAC, entity) publishes the payload and sends nothing. For an
   * unknown pair it publishes nothing and sends a request exactly when the cooldown gate is
   * open; a request records `now` for the MAC and writes the control frame.
   */
  lemma StateMessageRecovery(s: TaskState, message: string, h: Header, now: int, env: Env)
    ensures var r := StateMessage(s, message, h, now, env);
      var known := EntityKnown(s.devices, h.mac, h.entityId);
      var open := CooldownOver(s.cooldown, h.mac, now, env.cooldownThreshold);
      && r.devices == s.devices
      && (known ==> r.serialOut == s.serialOut && r.cooldown == s.cooldown
                    && r.events == s.events + [PublishState(h.mac, h.entityId, message)])
      && (!known ==> r.events == s.events && (|r.serialOut| > |s.serialOut| <==> open))
      && (!known && open ==>
            r.cooldown == s.cooldown[h.mac := now]
            && r.serialOut == s.serialOut + [ControlFrame(h.macBytes, env.commands.reset)])
      && (!known && !open ==> r == s)
  {
  }

  /**
   * Two STATE frames for the same unknown pair of a MAC without a cooldown entry, at times
   * `t1` and `t2`: the first always sends a request, the second only if `t2 - t1` reaches
   * the threshold, and the cooldown entry then holds the time of the last request.
   */
  lemma CooldownSpacesRequests(s: TaskState, message: string, h: Header, t1: int, t2: int, env: Env)
    requires !EntityKnown(s.devices, h.mac, h.entityId) && h.mac !in s.cooldown
    ensures var s1 := StateMessage(s, message, h, t1, env);
      var s2 := StateMessage(s1, message, h, t2, env);
      var again := t2 - t1 >= env.cooldownThreshold;
      && |s1.serialOut| == |s.serialOut| + 1
      && |s2.serialOut| == |s1.serialOut| + (if again then 1 else 0)
      && s2.cooldown[h.mac] == (if again then t2 else t1)
  {
    StateMessageRecovery(s, message, h, t1, env);
    var s1 := StateMessage(s, message, h, t1, env);
    StateMessageRecovery(s1, message, h, t2, env);
  }

  /**
   * A HEARTBEAT from a known device publishes the value to its signal-strength entity; from an
   * unknown device it sends a request whatever the cooldown map holds.
   */
  lemma HeartbeatRecovery(s: TaskState, h: Header, value: int, now: int, env: Env)
    ensures var r := Heartbeat(s, h, value, now, env);
      && r.devices == s.devices
      && (DeviceKnown(s.devices, h.mac) ==>
            r.serialOut == s.serialOut && r.cooldown == s.cooldown
            && r.events == s.events + [PublishRssi(h.mac, value)])
      && (!DeviceKnown(s.devices, h.mac) ==>
            r.events == s.events && r.cooldown == s.cooldown[h.mac := now]
            && r.serialOut == s.serialOut + [ControlFrame(h.macBytes, env.commands.reset)])
  {
  }

  /** A header too short to decode raises IndexError before anything changes. */
  lemma ShortHeaderRaises(s: TaskState, message: string, rawHeader: seq<byte>, now: int, env: Env)
    requires |rawHeader| < 8
    ensures SerialMessage(s, message, rawHeader, now, env) == StepResult(s, Some(IndexError))
  {
  }

  /**
   * Whatever the command type (RESET aside, which drops the registry), a known device's
   * last-seen time becomes `now`, an unknown MAC becomes known only through CONFIG, and every
   * other device is left as it was.
   */
  lemma LastSeenRefreshedOnlyWhenKnown(s: TaskState, message: string, rawHeader: seq<byte>, now: int, env: Env)
    requires |rawHeader| >= 8 && DecodeHeader(rawHeader).value.commandType != env.commands.reset
    ensures var h := DecodeHeader(rawHeader).value;
      var d := SerialMessage(s, message, rawHeader, now, env).state.devices;
      && (h.mac in s.devices ==> h.mac in d && d[h.mac].lastSeen == now)
      && (h.mac !in s.devices && h.commandType != env.commands.config ==> h.mac !in d)
      && (forall m :: m in s.devices && m != h.mac ==> m in d && d[m] == s.devices[m])
  {
    var h := DecodeHeader(rawHeader).value;
    var t := Touched(s, h, now);
    var d := SerialMessage(s, message, rawHeader, now, env).state.devices;
    var c := env.commands;
    if h.commandType == c.influx {
    } else if h.commandType == c.state {
      StateMessageRecovery(t, message, h, now, env);
    } else if h.commandType == c.config {
      var e := ConfigMessageEffect(message, EntityKnown(t.devices, h.mac, h.entityId), env);
      if e.Register? {
        assert d == WithElement(t.devices, h.mac, h.entityId, e.entity, now);
      } else {
        assert d == t.devices;
      }
    } else if h.commandType == c.heartbeat {
      HeartbeatRecovery(t, h, 10, now, env);
    }
  }

  /** RESET disconnects everything and leaves an empty registry; the cooldown map is kept. */
  lemma ResetClearsRegistry(s: TaskState, message: string, rawHeader: seq<byte>, now: int, env: Env)
    requires |rawHeader| >= 8 && DecodeHeader(rawHeader).value.commandType == env.commands.reset
    ensures var r := SerialMessage(s, message, rawHeader, now, env);
      && r.raised == None
      && r.state.devices == map[]
      && r.state.cooldown == s.cooldown && r.state.serialOut == s.serialOut
      && r.state.events == s.events + [DisconnectAll]
  {
  }

  /**
   * After a RESET, a STATE frame from any device, known before or not, is for an unknown pair:
   * once the cooldown gate is open for its MAC, it sends a request.
   */
  lemma ResetForgetsDevices(s: TaskState, m1: string, raw1: seq<byte>, t1: int,
                            m2: string, raw2: seq<byte>, t2: int, env: Env)
    requires Distinct(env.commands)
    requires |raw1| >= 8 && DecodeHeader(raw1).value.commandType == env.commands.reset
    requires |raw2| >= 8 && DecodeHeader(raw2).value.commandType == env.commands.state
    requires CooldownOver(s.cooldown, DecodeHeader(raw2).value.mac, t2, env.cooldownThreshold)
    ensures var s1 := SerialMessage(s, m1, raw1, t1, env).state;
      var r := SerialMessage(s1, m2, raw2, t2, env);
      && r.raised == None && r.state.devices == map[]
      && r.state.serialOut == s.serialOut + [ControlFrame(DecodeHeader(raw2).value.macBytes, env.commands.reset)]
  {
    ResetClearsRegistry(s, m1, raw1, t1, env);
  }

  /** A command type outside the six refreshes the last-seen time of a known device and does nothing else. */
  lemma UnknownCommandOnlyRefreshes(s: TaskState, message: string, rawHeader: seq<byte>, now: int, env: Env)
    requires |rawHeader| >= 8
    requires var c := env.commands;
      DecodeHeader(rawHeader).value.commandType !in {c.reset, c.influx, c.state, c.config, c.log, c.heartbeat}
    ensures var h := DecodeHeader(rawHeader).value;
      var r := SerialMessage(s, message, rawHeader, now, env);
      && r.raised == None
      && r.state.cooldown == s.cooldown && r.state.serialOut == s.serialOut && r.state.events == s.events
      && r.state.devices == (if h.mac in s.devices then WithLastSeen(s.devices, h.mac, now) else s.devices)
  {
  }

  /**
   * Outcomes of a configuration message: no `|` or fewer than four topic segments raise
   * IndexError; a template that does not parse is dropped; a registered pair is never
   * registered again; and no JSONDecodeError escapes the handler.
   */
  lemma ConfigMessageOutcomes(message: string, known: bool, env: Env)
    ensures var e := ConfigMessageEffect(message, known, env);
      var parts := Split(message, '|');
      var segs := Split(MessageTopic(message), '/');
      && (|parts| < 2 || |segs| < 4 ==> e == Raise(IndexError))
      && (|parts| >= 2 && |segs| >= 4 && env.parse(parts[1]).DecodeError? ==> e == Ignore)
      && (known ==> !e.Register?)
      && (e.Raise? ==> e.error != JsonDecodeError)
  {
  }

  /**
   * A registration made from a configuration message: the entity holds the expanded
   * configuration and timeout, subscribes to `homeassistant/status` and, exactly when the
   * platform has commands, to its command topic; its configuration topic is the message topic
   * plus `onfig`, and its companion is the one derived from the same message.
   */
  lemma RegisteredEntity(message: string, env: Env)
    requires ConfigMessageEffect(message, false, env).Register?
    ensures var entity := ConfigMessageEffect(message, false, env).entity;
      var parts := Split(message, '|');
      var topic := MessageTopic(message);
      var segs := Split(topic, '/');
      && |parts| >= 2 && |segs| >= 4 && segs[1] in env.platforms && env.parse(parts[1]).Parsed?
      && ExpandSensorConfig(env.parse(parts[1]).value, segs[3], topic, env.platforms, env.defaultTimeout)
         == Ok((entity.config, entity.secondsUntilTimeout))
      && entity.configTopic == topic + "onfig"
      && entity.subscriptions
         == ["homeassistant/status"] + (if env.platforms[segs[1]].command then [topic + "om"] else [])
      && "availability_topic" in entity.config && entity.config["availability_topic"].JStr?
      && RssiConfig(message, entity.config["availability_topic"].s, env.parse)
         == Ok((entity.rssiConfigTopic, entity.rssiConfig))
  {
  }

  /**
   * A CONFIG frame for an unknown pair whose template's `dev` holds `sut` but not
   * `seconds_until_timeout` is expanded, then its companion derivation raises KeyError, which
   * escapes the handler: nothing is registered.
   */
  lemma SutWithoutSecondsUntilTimeoutRaises(s: TaskState, message: string, rawHeader: seq<byte>, now: int, env: Env)
    requires Distinct(env.commands)
    requires |rawHeader| >= 8 && DecodeHeader(rawHeader).value.commandType == env.commands.config
    requires !EntityKnown(s.devices, DecodeHeader(rawHeader).value.mac, DecodeHeader(rawHeader).value.entityId)
    requires |Split(message, '|')| >= 2 && |Split(MessageTopic(message), '/')| >= 4
    requires env.parse(Split(message, '|')[1]).Parsed?
    requires ExpandSensorConfig(env.parse(Split(message, '|')[1]).value, Split(MessageTopic(message), '/')[3],
                                MessageTopic(message), env.platforms, env.defaultTimeout).Ok?
    requires var dev := env.parse(Split(message, '|')[1]).value.fields["dev"].fields;
      "sut" in dev && "seconds_until_timeout" !in dev && "name" in dev && dev["name"].JStr?
    ensures var r := SerialMessage(s, message, rawHeader, now, env);
      r.raised == Some(KeyError("seconds_until_timeout"))
      && r.state == Touched(s, DecodeHeader(rawHeader).value, now)
  {
    var h := DecodeHeader(rawHeader).value;
    var t := Touched(s, h, now);
    assert !EntityKnown(t.devices, h.mac, h.entityId);
    SutWithoutSecondsUntilTimeoutEffect(message, env);
    assert SerialMessage(s, message, rawHeader, now, env) == ConfigMessage(t, message, h, now, env);
  }

  /** The configuration-message half of `SutWithoutSecondsUntilTimeoutRaises`. */
  lemma SutWithoutSecondsUntilTimeoutEffect(message: string, env: Env)
    requires |Split(message, '|')| >= 2 && |Split(MessageTopic(message), '/')| >= 4
    requires env.parse(Split(message, '|')[1]).Parsed?
    requires ExpandSensorConfig(env.parse(Split(message, '|')[1]).value, Split(MessageTopic(message), '/')[3],
                                MessageTopic(message), env.platforms, env.defaultTimeout).Ok?
    requires var dev := env.parse(Split(message, '|')[1]).value.fields["dev"].fields;
      "sut" in dev && "seconds_until_timeout" !in dev && "name" in dev && dev["name"].JStr?
    ensures ConfigMessageEffect(message, false, env) == Raise(KeyError("seconds_until_timeout"))
  {
    var topic := MessageTopic(message);
    var template := env.parse(Split(message, '|')[1]).value;
    var expanded := ExpandSensorConfig(template, Split(topic, '/')[3], topic, env.platforms, env.defaultTimeout);
    var availability := expanded.value.0["availability_topic"].s;
    assert RssiConfig(message, availability, env.parse) == Err(KeyError("seconds_until_timeout")) by {
      SplitAppendCount(topic, "onfig", '/');
      RssiConfigOutcome(message, availability, env.parse);
    }
  }

  /** One frame raises JSONDecodeError only through the Influx handler. */
  lemma SerialMessageNoDecodeError(s: TaskState, message: string, rawHeader: seq<byte>, now: int, env: Env)
    requires env.influx(message) != Some(JsonDecodeError)
    ensures SerialMessage(s, message, rawHeader, now, env).raised != Some(JsonDecodeError)
  {
    if |rawHeader| >= 8 {
      var h := DecodeHeader(rawHeader).value;
      var t := Touched(s, h, now);
      ConfigMessageOutcomes(message, EntityKnown(t.devices, h.mac, h.entityId), env);
    }
  }

  /**
   * When the Influx handler never raises JSONDecodeError, the reading loop never ends with one:
   * malformed configuration templates are dropped, not fatal.
   */
  lemma {:induction false} RunEndsWithoutDecodeError(s: TaskState, src: seq<byte>, pos: nat, frame: nat,
                                                     clock: nat -> int, env: Env)
    requires pos <= |src|
    requires forall m :: env.influx(m) != Some(JsonDecodeError)
    ensures RunFrom(s, src, pos, frame, clock, env).1 != JsonDecodeError
    decreases |src| - pos
  {
    match ParseFrame(src, pos)
    case Timeout =>
    case Frame(header, payload, next) =>
      ParseFrameAdvances(src, pos);
      var r := SerialMessage(s, env.decode(payload), header, clock(frame), env);
      SerialMessageNoDecodeError(s, env.decode(payload), header, clock(frame), env);
      if r.raised.None? {
        RunEndsWithoutDecodeError(r.state, src, next, frame + 1, clock, env);
      }
  }

  /** A frame cut short inside its header ends the loop with IndexError, the state unchanged. */
  lemma TruncatedHeaderEndsRun(s: TaskState, src: seq<byte>, pos: nat, frame: nat, clock: nat -> int, env: Env)
    requires pos <= |src| && ParseFrame(src, pos).Frame? && |ParseFrame(src, pos).header| < 8
    ensures RunFrom(s, src, pos, frame, clock, env) == (s, IndexError)
  {
  }

  /**
   * A configuration message `<x>/<platform>/<node>/<entity>/c|<template>` for an unknown pair,
   * where the platform has a state and a command topic and the template's `dev` holds a string
   * `ids`, a string `name` and no `sut`: the entity is registered with configuration topic
   * `homeassistant/<platform>/<node>/<entity>/config`, state topic `.../<entity>/state`, command
   * topic `.../<entity>/com` (also subscribed to), the default timeout, and a companion whose
   * topics are `homeassistant/sensor/rssi/<ids>_rssi/config` and `.../state`.
   */
  lemma NodeConfigRegistration(head: string, templateText: string, platform: string, node: string, entity: string,
                               env: Env)
    requires '|' !in head && '|' !in templateText
    requires "homeassistant" + DropFirst(head) == NodeTopic(platform, node, entity)
    requires '/' !in platform && '/' !in node && '/' !in entity
    requires platform in env.platforms && env.platforms[platform].state && env.platforms[platform].command
    requires env.parse(templateText).Parsed? && DevIds(env.parse(templateText).value).Ok?
    requires var dev := env.parse(templateText).value.fields["dev"].fields;
      "name" in dev && dev["name"].JStr? && "sut" !in dev
    ensures var ids := DevIds(env.parse(templateText).value).value;
      var rssiId := ReplaceChar(ids + "_rssi", ' ', '_');
      var commandTopic := Join(["homeassistant", platform, node, entity, "com"], '/');
      var e := ConfigMessageEffect(head + "|" + templateText, false, env);
      && e.Register?
      && e.entity.configTopic == Join(["homeassistant", platform, node, entity, "config"], '/')
      && "state_topic" in e.entity.config && "command_topic" in e.entity.config
      && "availability_topic" in e.entity.config
      && e.entity.config["state_topic"] == JStr(Join(["homeassistant", platform, node, entity, "state"], '/'))
      && e.entity.config["command_topic"] == JStr(commandTopic)
      && e.entity.config["availability_topic"] == JStr("homeassistant/available/" + ReplaceChar(ids, ' ', '_'))
      && e.entity.subscriptions == ["homeassistant/status", commandTopic]
      && e.entity.secondsUntilTimeout == env.defaultTimeout
      && e.entity.rssiConfigTopic == Join(["homeassistant", "sensor", "rssi", rssiId, "config"], '/')
      && "state_topic" in e.entity.rssiConfig && "unique_id" in e.entity.rssiConfig
      && e.entity.rssiConfig["state_topic"] == JStr(Join(["homeassistant", "sensor", "rssi", rssiId, "state"], '/'))
      && e.entity.rssiConfig["unique_id"] == JStr(ids + "_rssi")
  {
    var template := env.parse(templateText).value;
    NodeMessageSplits(head, templateText, platform, node, entity);
    ExpandedTopics(template, platform, node, entity, env.platforms, env.defaultTimeout);
    var expanded := ExpandSensorConfig(template, entity, NodeTopic(platform, node, entity), env.platforms, env.defaultTimeout);
    CompanionTopics(head, templateText, platform, node, entity, expanded.value.0["availability_topic"].s, env.parse);
  }

  /**
   * The same kind of message, but with a template whose `dev` has no `name`: the entity is
   * expanded, then the companion derivation raises KeyError, which escapes the handler, so
   * nothing is registered.
   */
  lemma TemplateWithoutNameRaises(head: string, templateText: string, platform: string, node: string, entity: string,
                                  env: Env)
    requires '|' !in head && '|' !in templateText
    requires "homeassistant" + DropFirst(head) == NodeTopic(platform, node, entity)
    requires '/' !in platform && '/' !in node && '/' !in entity
    requires platform in env.platforms
    requires env.parse(templateText).Parsed? && DevIds(env.parse(templateText).value).Ok?
    requires "name" !in env.parse(templateText).value.fields["dev"].fields
    ensures ConfigMessageEffect(head + "|" + templateText, false, env) == Raise(KeyError("name"))
  {
    NodeMessageSplits(head, templateText, platform, node, entity);
    SplitJoin(["homeassistant", platform, node, entity, "c"], '/');
  }
}
