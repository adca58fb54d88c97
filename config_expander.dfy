/**
 * Derivation of the Home-Assistant discovery configuration of an entity
 * (`expand_sensor_config`) and of its companion signal-strength entity
 * (`format_mqtt_rssi_config_topic`) from the JSON template a node sends.
 */
module ConfigExpander {
  import opened Json
  import opened Text

  /** One row of the platform table: whether the platform has a state topic and a command topic. */
  datatype Capability = Capability(state: bool, command: bool)

  /** The keys `expand_sensor_config` may write for a platform with capability `cap`. */
  function WrittenKeys(cap: Capability): set<string>
  {
    {"unique_id", "object_id", "dev", "availability_topic"}
    + (if cap.state then {"state_topic"} else {})
    + (if cap.command then {"command_topic"} else {})
  }

  /** The keys of a companion signal-strength configuration. */
  const RssiKeys: set<string> :=
    {"dev", "name", "unique_id", "object_id", "device_class", "state_class",
     "availability_topic", "unit_of_measurement", "state_topic"}

  /** `config["dev"]["ids"]` as a string, with the exceptions Python raises on the way. */
  function DevIds(config: Json): (r: Result<string>)
    ensures r.Ok? <==> config.JObj? && "dev" in config.fields
                       && config.fields["dev"].JObj? && "ids" in config.fields["dev"].fields
                       && config.fields["dev"].fields["ids"].JStr?
    ensures r.Ok? ==> r.value == config.fields["dev"].fields["ids"].s
  {
    match Field(config, "dev")
    case Err(e) => Err(e)
    case Ok(dev) => StringField(dev, "ids")
  }

  /**
   * `expand_sensor_config(template, clientName, topic)`: the expanded configuration and the
   * entity's seconds-until-timeout, or the exception raised. `platforms` is the platform
   * table and `defaultTimeout` the configured default.
   */
  function ExpandSensorConfig(template: Json, clientName: string, topic: string,
                              platforms: map<string, Capability>, defaultTimeout: Json)
    : (r: Result<(map<string, Json>, Json)>)
    ensures var segs := Split(topic, '/');
      && (|segs| < 2 ==> r == Err(IndexError))
      && (|segs| >= 2 && !template.JObj? ==> r == Err(WrongType))
      && (|segs| >= 2 && template.JObj? && segs[1] !in platforms ==> r == Err(KeyError(segs[1])))
      && (|segs| >= 2 && template.JObj? && segs[1] in platforms && "dev" !in template.fields
          ==> r == Err(KeyError("dev")))
      && (r.Ok? <==> |segs| >= 2 && segs[1] in platforms && DevIds(template).Ok?)
    ensures r.Ok? ==>
      var (cfg, timeout) := r.value;
      var fields := template.fields;
      var cap := platforms[Split(topic, '/')[1]];
      var dev := fields["dev"].fields;
      && |topic| >= 1
      && cfg.Keys == fields.Keys + WrittenKeys(cap)
      && (forall k :: k in fields && k !in WrittenKeys(cap) ==> cfg[k] == fields[k])
      && cfg["unique_id"] == JStr(clientName) && cfg["object_id"] == JStr(clientName)
      && (cap.state ==> cfg["state_topic"] == JStr(topic[..|topic| - 1] + "state"))
      && (cap.command ==> cfg["command_topic"] == JStr(topic + "om"))
      && cfg["dev"] == JObj(dev - {"sut"})
      && timeout == (if "sut" in dev then dev["sut"] else defaultTimeout)
      && cfg["availability_topic"]
         == JStr("homeassistant/available/" + ReplaceChar(dev["ids"].s, ' ', '_'))
  {
    var segs := Split(topic, '/');
    if |segs| < 2 then Err(IndexError)
    else if !template.JObj? then Err(WrongType)
    else if segs[1] !in platforms then Err(KeyError(segs[1]))
    else
      var cap := platforms[segs[1]];
      var named := template.fields["unique_id" := JStr(clientName)]["object_id" := JStr(clientName)];
      var withState := if cap.state then named["state_topic" := JStr(topic[..|topic| - 1] + "state")] else named;
      var withCommand := if cap.command then withState["command_topic" := JStr(topic + "om")] else withState;
      match Field(JObj(withCommand), "dev")
      case Err(e) => Err(e)
      case Ok(devValue) =>
        if !devValue.JObj? then Err(WrongType)
        else
          var dev := devValue.fields;
          var timeout := if "sut" in dev then dev["sut"] else defaultTimeout;
          match StringField(JObj(dev - {"sut"}), "ids")
          case Err(e) => Err(e)
          case Ok(ids) =>
            Ok((withCommand["dev" := JObj(dev - {"sut"})]
                           ["availability_topic" := JStr("homeassistant/available/" + ReplaceChar(ids, ' ', '_'))],
                timeout))
  }

  /** The topic of a configuration message: `"homeassistant" + message.split("|")[0][1:]`. */
  function MessageTopic(message: string): string
  {
    "homeassistant" + DropFirst(Split(message, '|')[0])
  }

  /** `json.loads(message.split("|")[1])`, with the exceptions raised on the way. */
  function MessageTemplate(message: string, parse: string -> Parsed): Result<Json>
  {
    var parts := Split(message, '|');
    if |parts| < 2 then Err(IndexError)
    else match parse(parts[1])
      case DecodeError => Err(JsonDecodeError)
      case Parsed(v) => Ok(v)
  }

  /**
   * A message without `|` has no template (IndexError). Otherwise the template is the text
   * between the first `|` and the next one: a template that itself holds `|` is cut there
   * before it is parsed.
   */
  lemma MessageTemplateOfParts(head: string, tail: string, parse: string -> Parsed)
    requires '|' !in head
    ensures MessageTemplate(head, parse) == Err(IndexError)
    ensures var text := Split(tail, '|')[0];
      && text <= tail
      && ('|' in tail ==> |text| < |tail| && tail[|text|] == '|')
      && ('|' !in tail ==> text == tail)
    ensures var text := Split(tail, '|')[0];
      MessageTemplate(head + ['|'] + tail, parse)
      == if parse(text).Parsed? then Ok(parse(text).value) else Err(JsonDecodeError)
  {
    SplitNoSeparator(head, '|');
    SplitPrefix(head, tail, '|');
    var parts := Split(tail, '|');
    JoinSplit(tail, '|');
    if |parts| == 1 {
      assert tail == parts[0];
    } else {
      assert tail == parts[0] + ['|'] + Join(parts[1..], '|');
    }
  }

  /** The topic segments after the companion rewrite: platform `sensor`, node `rssi`, object `<ids>_rssi`. */
  function RssiSegments(segs: seq<string>, ids: string): (r: seq<string>)
    requires |segs| >= 4
    ensures |r| == |segs| && r[0] == segs[0] && r[4..] == segs[4..]
    ensures r[1] == "sensor" && r[2] == "rssi" && r[3] == ids + "_rssi"
  {
    segs[1 := "sensor"][2 := "rssi"][3 := ids + "_rssi"]
  }

  /** A rewritten companion topic is long enough to lose its last six characters. */
  lemma RssiTopicLength(rssiSegs: seq<string>)
    requires |rssiSegs| >= 4 && rssiSegs[1] == "sensor"
    ensures |ReplaceChar(Join(rssiSegs, '/'), ' ', '_')| >= 6
  {
    JoinLength(rssiSegs, '/', 1);
  }

  /** The fields set at lines 84-94, once every key but `dev` is gone. */
  function CompanionFields(topic: string, clientName: string, dev: map<string, Json>, availabilityTopic: string)
    : Result<map<string, Json>>
    requires |topic| >= 6
  {
    match StringField(JObj(dev), "name")
    case Err(e) => Err(e)
    case Ok(name) =>
      if "sut" in dev && "seconds_until_timeout" !in dev then Err(KeyError("seconds_until_timeout"))
      else
        Ok(map[
          "dev" := JObj(if "sut" in dev then dev - {"seconds_until_timeout"} else dev),
          "name" := JStr(name + " RSSI"),
          "unique_id" := JStr(clientName),
          "object_id" := JStr(clientName),
          "device_class" := JStr("signal_strength"),
          "state_class" := JStr("measurement"),
          "availability_topic" := JStr(availabilityTopic),
          "unit_of_measurement" := JStr("dBm"),
          "state_topic" := JStr(topic[..|topic| - 6] + "state")])
  }

  /**
   * `format_mqtt_rssi_config_topic(message, availabilityTopic)` as a value: the companion's
   * configuration topic and configuration, or the exception raised. `parse` is `json.loads`.
   */
  function RssiConfig(message: string, availabilityTopic: string, parse: string -> Parsed)
    : Result<(string, map<string, Json>)>
  {
    match MessageTemplate(message, parse)
    case Err(e) => Err(e)
    case Ok(config) =>
      var segs := Split(MessageTopic(message) + "onfig", '/');
      if |segs| < 3 then Err(IndexError)
      else match DevIds(config)
      case Err(e) => Err(e)
      case Ok(ids) =>
        if |segs| < 4 then Err(IndexError)
        else
          var rssiSegs := RssiSegments(segs, ids);
          var topic := ReplaceChar(Join(rssiSegs, '/'), ' ', '_');
          RssiTopicLength(rssiSegs);
          match CompanionFields(topic, rssiSegs[3], config.fields["dev"].fields, availabilityTopic)
          case Err(e) => Err(e)
          case Ok(cfg) => Ok((topic, cfg))
  }

  /**
   * `format_mqtt_rssi_config_topic`: parse the template again, rewrite the topic, then delete
   * every top-level key but `dev` in two passes (collect, then delete) and fill in the fields.
   */
  method FormatMqttRssiConfigTopic(message: string, availabilityTopic: string, parse: string -> Parsed)
    returns (r: Result<(string, map<string, Json>)>)
    ensures r == RssiConfig(message, availabilityTopic, parse)
  {
    var template := MessageTemplate(message, parse);
    if template.Err? {
      return Err(template.error);
    }
    var config := template.value;
    var segs := Split(MessageTopic(message) + "onfig", '/');
    if |segs| < 3 {
      return Err(IndexError);
    }
    var ids := DevIds(config);
    if ids.Err? {
      return Err(ids.error);
    }
    if |segs| < 4 {
      return Err(IndexError);
    }
    var rssiSegs := RssiSegments(segs, ids.value);
    var topic := ReplaceChar(Join(rssiSegs, '/'), ' ', '_');
    var clientName := rssiSegs[3];

    var fields := config.fields;
    var keysToDelete: set<string> := {};
    var pending := fields.Keys;
    while pending != {}
      invariant pending <= fields.Keys
      invariant keysToDelete == (fields.Keys - pending) - {"dev"}
      decreases pending
    {
      var key :| key in pending;
      if key != "dev" {
        keysToDelete := keysToDelete + {key};
      }
      pending := pending - {key};
    }
    ghost var deleted := keysToDelete;
    while keysToDelete != {}
      invariant keysToDelete <= deleted
      invariant fields == config.fields - (deleted - keysToDelete)
      decreases keysToDelete
    {
      var key :| key in keysToDelete;
      fields := fields - {key};
      keysToDelete := keysToDelete - {key};
    }
    assert fields == map["dev" := config.fields["dev"]];
    assert config.fields["dev"] == JObj(config.fields["dev"].fields);

    var dev := fields["dev"].fields;
    var name := StringField(JObj(dev), "name");
    if name.Err? {
      return Err(name.error);
    }
    RssiTopicLength(rssiSegs);
    fields := fields["name" := JStr(name.value + " RSSI")];
    fields := fields["unique_id" := JStr(clientName)];
    fields := fields["object_id" := JStr(clientName)];
    fields := fields["device_class" := JStr("signal_strength")];
    fields := fields["state_class" := JStr("measurement")];
    fields := fields["availability_topic" := JStr(availabilityTopic)];
    fields := fields["unit_of_measurement" := JStr("dBm")];
    fields := fields["state_topic" := JStr(topic[..|topic| - 6] + "state")];
    if "sut" in dev {
      if "seconds_until_timeout" !in dev {
        return Err(KeyError("seconds_until_timeout"));
      }
      fields := fields["dev" := JObj(dev - {"seconds_until_timeout"})];
    }
    assert fields == CompanionFields(topic, clientName, dev, availabilityTopic).value;
    r := Ok((topic, fields));
  }

  /**
   * The companion fields exist exactly when `dev.name` is a string and `dev` does not hold `sut`
   * without `seconds_until_timeout`; in that last case line 94 deletes a missing key and raises
   * KeyError. Otherwise only `dev` survives from the template, beside the fixed signal-strength fields.
   */
  lemma CompanionFieldsShape(topic: string, clientName: string, dev: map<string, Json>, availabilityTopic: string)
    requires |topic| >= 6
    ensures var r := CompanionFields(topic, clientName, dev, availabilityTopic);
      && (r.Ok? <==> "name" in dev && dev["name"].JStr? && ("sut" in dev ==> "seconds_until_timeout" in dev))
      && ("name" in dev && dev["name"].JStr? && "sut" in dev && "seconds_until_timeout" !in dev
          ==> r == Err(KeyError("seconds_until_timeout")))
      && (r.Ok? ==>
            && r.value.Keys == RssiKeys
            && r.value["name"] == JStr(dev["name"].s + " RSSI")
            && r.value["unique_id"] == JStr(clientName) && r.value["object_id"] == JStr(clientName)
            && r.value["device_class"] == JStr("signal_strength")
            && r.value["state_class"] == JStr("measurement")
            && r.value["unit_of_measurement"] == JStr("dBm")
            && r.value["availability_topic"] == JStr(availabilityTopic)
            && r.value["state_topic"] == JStr(topic[..|topic| - 6] + "state")
            && ("sut" !in dev ==> r.value["dev"] == JObj(dev))
            && ("sut" in dev ==>
                  r.value["dev"] == JObj(dev - {"seconds_until_timeout"}) && "sut" in r.value["dev"].fields))
  {
  }

  /**
   * The companion derivation of a message succeeds exactly when the message has a `|`, its
   * template parses, its topic has at least four segments, `dev.ids` is a string and the
   * companion fields exist; a template whose `dev` holds `sut` but not `seconds_until_timeout`
   * makes it raise KeyError.
   */
  lemma RssiConfigOutcome(message: string, availabilityTopic: string, parse: string -> Parsed)
    ensures var r := RssiConfig(message, availabilityTopic, parse);
      var t := MessageTemplate(message, parse);
      var segs := Split(MessageTopic(message) + "onfig", '/');
      && (t.Err? ==> r == Err(t.error))
      && (r.Ok? <==>
            && t.Ok? && |segs| >= 4 && DevIds(t.value).Ok?
            && var dev := t.value.fields["dev"].fields;
               "name" in dev && dev["name"].JStr? && ("sut" in dev ==> "seconds_until_timeout" in dev))
      && ((&& t.Ok? && |segs| >= 4 && DevIds(t.value).Ok?
           && var dev := t.value.fields["dev"].fields;
              "name" in dev && dev["name"].JStr? && "sut" in dev && "seconds_until_timeout" !in dev)
          ==> r == Err(KeyError("seconds_until_timeout")))
  {
    var t := MessageTemplate(message, parse);
    var segs := Split(MessageTopic(message) + "onfig", '/');
    if t.Ok? && |segs| >= 4 && DevIds(t.value).Ok? {
      var rssiSegs := RssiSegments(segs, DevIds(t.value).value);
      var topic := ReplaceChar(Join(rssiSegs, '/'), ' ', '_');
      RssiTopicLength(rssiSegs);
      var fields := CompanionFields(topic, rssiSegs[3], t.value.fields["dev"].fields, availabilityTopic);
      CompanionFieldsShape(topic, rssiSegs[3], t.value.fields["dev"].fields, availabilityTopic);
      assert RssiConfig(message, availabilityTopic, parse)
          == if fields.Err? then Err(fields.error) else Ok((topic, fields.value));
    }
  }

  /**
   * A successful companion derivation: the topic is the message topic with segments 1 to 3
   * rewritten to `sensor`, `rssi` and `<ids>_rssi`, joined, spaces then replaced by underscores;
   * the client name `<ids>_rssi` is taken before that replacement.
   */
  lemma RssiConfigTopic(message: string, availabilityTopic: string, parse: string -> Parsed)
    requires RssiConfig(message, availabilityTopic, parse).Ok?
    ensures var config := MessageTemplate(message, parse).value;
      var ids := DevIds(config).value;
      var segs := Split(MessageTopic(message) + "onfig", '/');
      var (topic, cfg) := RssiConfig(message, availabilityTopic, parse).value;
      && |segs| >= 4
      && topic == ReplaceChar(Join(RssiSegments(segs, ids), '/'), ' ', '_')
      && |topic| >= 6
      && cfg == CompanionFields(topic, ids + "_rssi", config.fields["dev"].fields, availabilityTopic).value
  {
  }

  /**
   * When `dev.ids` has no `/`, the companion topic splits again into the rewritten segments
   * (spaces replaced): its platform segment is `sensor` and its node segment `rssi`.
   */
  lemma {:induction false} RssiTopicResplits(segs: seq<string>, ids: string)
    requires |segs| >= 4 && forall i :: 0 <= i < |segs| ==> '/' !in segs[i]
    requires '/' !in ids
    ensures var resplit := Split(ReplaceChar(Join(RssiSegments(segs, ids), '/'), ' ', '_'), '/');
      && |resplit| == |segs|
      && resplit[1] == "sensor" && resplit[2] == "rssi"
      && resplit[3] == ReplaceChar(ids + "_rssi", ' ', '_')
      && resplit[4..] == ReplaceEach(segs[4..], ' ', '_')
  {
    var rssiSegs := RssiSegments(segs, ids);
    assert '/' !in ids + "_rssi";
    assert forall i :: 0 <= i < |rssiSegs| ==> '/' !in rssiSegs[i];
    SplitReplacedJoin(rssiSegs, '/', ' ', '_');
    ReplaceAbsent("sensor", ' ', '_');
    ReplaceAbsent("rssi", ' ', '_');
    var replaced := ReplaceEach(rssiSegs, ' ', '_');
    assert replaced[4..] == ReplaceEach(segs[4..], ' ', '_');
  }

  /** The topic a node's message names: `homeassistant/<platform>/<node>/<entity>/c`. */
  function NodeTopic(platform: string, node: string, entity: string): string
  {
    Join(["homeassistant", platform, node, entity, "c"], '/')
  }

  /**
   * For a topic `homeassistant/<platform>/<node>/<entity>/c` whose platform has a state and a
   * command topic, the state topic is `homeassistant/<platform>/<node>/<entity>/state` and the
   * command topic `homeassistant/<platform>/<node>/<entity>/com`.
   */
  lemma ExpandedTopics(template: Json, platform: string, node: string, entity: string,
                       platforms: map<string, Capability>, defaultTimeout: Json)
    requires '/' !in platform && '/' !in node && '/' !in entity
    requires platform in platforms && platforms[platform].state && platforms[platform].command
    requires DevIds(template).Ok?
    ensures Split(NodeTopic(platform, node, entity), '/') == ["homeassistant", platform, node, entity, "c"]
    ensures var r := ExpandSensorConfig(template, entity, NodeTopic(platform, node, entity), platforms, defaultTimeout);
      && r.Ok?
      && r.value.0["state_topic"] == JStr(Join(["homeassistant", platform, node, entity, "state"], '/'))
      && r.value.0["command_topic"] == JStr(Join(["homeassistant", platform, node, entity, "com"], '/'))
  {
    var segs := ["homeassistant", platform, node, entity, "c"];
    var topic := Join(segs, '/');
    SplitJoin(segs, '/');
    JoinLast(segs, '/');
    assert topic[..|topic| - 1] == Join(segs[..4], '/') + ['/'];
    var stateSegs := ["homeassistant", platform, node, entity, "state"];
    JoinLast(stateSegs, '/');
    assert stateSegs[..4] == segs[..4];
    assert topic[..|topic| - 1] + "state" == Join(stateSegs, '/');
    JoinAppend(segs, "om", '/');
    assert "c" + "om" == "com";
    assert segs[4 := "c" + "om"] == ["homeassistant", platform, node, entity, "com"];
  }

  /** How a message `<x>/<platform>/<node>/<entity>/c|<template>` and its configuration topic split. */
  lemma NodeMessageSplits(head: string, templateText: string, platform: string, node: string, entity: string)
    requires '|' !in head && '|' !in templateText
    requires "homeassistant" + DropFirst(head) == NodeTopic(platform, node, entity)
    requires '/' !in platform && '/' !in node && '/' !in entity
    ensures Split(head + "|" + templateText, '|') == [head, templateText]
    ensures MessageTopic(head + "|" + templateText) == NodeTopic(platform, node, entity)
    ensures MessageTopic(head + "|" + templateText) + "onfig" == Join(["homeassistant", platform, node, entity, "config"], '/')
    ensures Split(MessageTopic(head + "|" + templateText) + "onfig", '/')
            == ["homeassistant", platform, node, entity, "config"]
  {
    SplitPrefix(head, templateText, '|');
    SplitNoSeparator(templateText, '|');
    var segs := ["homeassistant", platform, node, entity, "c"];
    JoinAppend(segs, "onfig", '/');
    assert "c" + "onfig" == "config";
    var configSegs := ["homeassistant", platform, node, entity, "config"];
    assert segs[4 := "c" + "onfig"] == configSegs;
    SplitJoin(configSegs, '/');
  }

  /** Dropping the last six characters of a topic ending in `/config` and appending `state` gives the `/state` sibling. */
  lemma {:induction false} ConfigToState(parts: seq<string>)
    requires |parts| >= 2 && parts[|parts| - 1] == "config"
    ensures var topic := Join(parts, '/');
      |topic| >= 6 && topic[..|topic| - 6] + "state" == Join(parts[|parts| - 1 := "state"], '/')
  {
    var n := |parts|;
    var topic := Join(parts, '/');
    JoinLast(parts, '/');
    assert topic[..|topic| - 6] == Join(parts[..n - 1], '/') + ['/'];
    var stateParts := parts[n - 1 := "state"];
    JoinLast(stateParts, '/');
    assert stateParts[..n - 1] == parts[..n - 1];
  }

  /** Only the `<ids>_rssi` segment of the companion topic can hold spaces to replace. */
  lemma CompanionTopicSegments(configSegs: seq<string>, ids: string)
    requires |configSegs| >= 4 && forall i :: 0 <= i < |configSegs| && i != 1 && i != 2 && i != 3 ==> ' ' !in configSegs[i]
    ensures var rssiSegs := RssiSegments(configSegs, ids);
      ReplaceChar(Join(rssiSegs, '/'), ' ', '_') == Join(rssiSegs[3 := ReplaceChar(ids + "_rssi", ' ', '_')], '/')
  {
    var rssiSegs := RssiSegments(configSegs, ids);
    ReplaceJoin(rssiSegs, '/', ' ', '_');
    assert ' ' !in rssiSegs[1] && ' ' !in rssiSegs[2];
    ReplaceEachOnly(rssiSegs, 3, ' ', '_');
  }

  /** The companion topic and state topic derived from a configuration topic `homeassistant/.../config`. */
  lemma CompanionTopicOfNode(configSegs: seq<string>, ids: string)
    requires |configSegs| == 5 && configSegs[0] == "homeassistant" && configSegs[4] == "config"
    ensures var rssiId := ReplaceChar(ids + "_rssi", ' ', '_');
      var topic := ReplaceChar(Join(RssiSegments(configSegs, ids), '/'), ' ', '_');
      && topic == Join(["homeassistant", "sensor", "rssi", rssiId, "config"], '/')
      && |topic| >= 6
      && topic[..|topic| - 6] + "state" == Join(["homeassistant", "sensor", "rssi", rssiId, "state"], '/')
  {
    assert ' ' !in configSegs[0] && ' ' !in configSegs[4];
    CompanionTopicSegments(configSegs, ids);
    var rssiId := ReplaceChar(ids + "_rssi", ' ', '_');
    assert RssiSegments(configSegs, ids)[3 := rssiId] == ["homeassistant", "sensor", "rssi", rssiId, "config"];
    ConfigToState(["homeassistant", "sensor", "rssi", rssiId, "config"]);
    assert ["homeassistant", "sensor", "rssi", rssiId, "config"][4 := "state"]
        == ["homeassistant", "sensor", "rssi", rssiId, "state"];
  }

  /**
   * For a message `<x>/<platform>/<node>/<entity>/c|<template>`, the companion's topic is
   * `homeassistant/sensor/rssi/<ids>_rssi/config` (spaces replaced), its state topic
   * `homeassistant/sensor/rssi/<ids>_rssi/state` and its client name `<ids>_rssi`.
   */
  lemma CompanionTopics(head: string, templateText: string, platform: string, node: string, entity: string,
                        availabilityTopic: string, parse: string -> Parsed)
    requires '|' !in head && '|' !in templateText
    requires "homeassistant" + DropFirst(head) == NodeTopic(platform, node, entity)
    requires '/' !in platform && '/' !in node && '/' !in entity
    requires parse(templateText).Parsed? && DevIds(parse(templateText).value).Ok?
    requires var dev := parse(templateText).value.fields["dev"].fields;
      "name" in dev && dev["name"].JStr? && "sut" !in dev
    ensures var ids := DevIds(parse(templateText).value).value;
      var rssiId := ReplaceChar(ids + "_rssi", ' ', '_');
      var r := RssiConfig(head + "|" + templateText, availabilityTopic, parse);
      && r.Ok?
      && r.value.0 == Join(["homeassistant", "sensor", "rssi", rssiId, "config"], '/')
      && r.value.1["state_topic"] == JStr(Join(["homeassistant", "sensor", "rssi", rssiId, "state"], '/'))
      && r.value.1["unique_id"] == JStr(ids + "_rssi")
  {
    var message := head + "|" + templateText;
    NodeMessageSplits(head, templateText, platform, node, entity);
    var configSegs := ["homeassistant", platform, node, entity, "config"];
    var ids := DevIds(parse(templateText).value).value;
    CompanionTopicOfNode(configSegs, ids);
    RssiConfigOutcome(message, availabilityTopic, parse);
    RssiConfigTopic(message, availabilityTopic, parse);
    var topic := ReplaceChar(Join(RssiSegments(configSegs, ids), '/'), ' ', '_');
    CompanionFieldsShape(topic, ids + "_rssi", parse(templateText).value.fields["dev"].fields, availabilityTopic);
  }
}
