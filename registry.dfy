/**
 * The device registry (`NowqttDevices`), seen through the operations the serial task calls:
 * `has_device`, `has_device_and_entity`, `add_element`, `set_last_seen_timestamp_to_now` and
 * replacement by a fresh, empty registry. Its MQTT clients are left out; what is kept of an
 * entity is what `add_element` is given.
 */
module Registry {
  import opened Bytes
  import opened Json

  /** The arguments of `add_element` for one entity. */
  datatype Entity = Entity(
    config: map<string, Json>,        // expanded discovery configuration
    subscriptions: seq<string>,       // MQTT topics the entity subscribes to
    configTopic: string,              // discovery configuration topic
    rssiConfig: map<string, Json>,    // companion signal-strength configuration
    rssiConfigTopic: string,          // companion configuration topic
    secondsUntilTimeout: Json)        // availability timeout

  datatype Device = Device(lastSeen: int, entities: map<byte, Entity>)

  /** Devices by MAC address (as an integer). */
  type Devices = map<nat, Device>

  /** `has_device(mac)` on a registry value. */
  predicate DeviceKnown(devices: Devices, mac: nat)
  {
    mac in devices
  }

  /** `has_device_and_entity(mac, entity_id)` on a registry value. */
  predicate EntityKnown(devices: Devices, mac: nat, entityId: byte)
  {
    mac in devices && entityId in devices[mac].entities
  }

  /** The registry after `set_last_seen_timestamp_to_now(mac)` at time `now`, for a known device. */
  function WithLastSeen(devices: Devices, mac: nat, now: int): (r: Devices)
    requires mac in devices
    ensures r.Keys == devices.Keys
    ensures r[mac] == devices[mac].(lastSeen := now)
    ensures forall m :: m in devices && m != mac ==> r[m] == devices[m]
  {
    devices[mac := devices[mac].(lastSeen := now)]
  }

  /**
   * The registry after `add_element` for (mac, entityId) at time `now`: a new device is created
   * with that one entity and `now` as last-seen time; a known device gains or replaces the entity.
   */
  function WithElement(devices: Devices, mac: nat, entityId: byte, entity: Entity, now: int): (r: Devices)
    ensures r.Keys == devices.Keys + {mac}
    ensures EntityKnown(r, mac, entityId) && r[mac].entities[entityId] == entity
    ensures mac in devices ==> r[mac] == devices[mac].(entities := devices[mac].entities[entityId := entity])
    ensures mac !in devices ==> r[mac] == Device(now, map[entityId := entity])
    ensures forall m :: m in devices && m != mac ==> r[m] == devices[m]
  {
    if mac in devices
    then devices[mac := devices[mac].(entities := devices[mac].entities[entityId := entity])]
    else devices[mac := Device(now, map[entityId := entity])]
  }

  /** Devices only come into being with an entity. */
  predicate EveryDeviceHasEntity(devices: Devices)
  {
    forall m :: m in devices ==> devices[m].entities != map[]
  }

  class NowqttDevices {
    var devices: Devices

    /** `NowqttDevices()`: an empty registry. */
    constructor ()
      ensures devices == map[]
    {
      devices := map[];
    }

    predicate HasDevice(mac: nat)
      reads this
    {
      DeviceKnown(devices, mac)
    }

    predicate HasDeviceAndEntity(mac: nat, entityId: byte)
      reads this
    {
      EntityKnown(devices, mac, entityId)
    }

    method SetLastSeenTimestampToNow(mac: nat, now: int)
      requires mac in devices
      modifies this
      ensures devices == WithLastSeen(old(devices), mac, now)
    {
      devices := devices[mac := devices[mac].(lastSeen := now)];
    }

    method AddElement(mac: nat, entityId: byte, entity: Entity, now: int)
      modifies this
      ensures devices == WithElement(old(devices), mac, entityId, entity, now)
    {
      if mac in devices {
        var device := devices[mac];
        devices := devices[mac := device.(entities := device.entities[entityId := entity])];
      } else {
        devices := devices[mac := Device(now, map[entityId := entity])];
      }
    }
  }

  /** Adding an element keeps every device with an entity. */
  lemma WithElementKeepsEntities(devices: Devices, mac: nat, entityId: byte, entity: Entity, now: int)
    requires EveryDeviceHasEntity(devices)
    ensures EveryDeviceHasEntity(WithElement(devices, mac, entityId, entity, now))
  {
    var r := WithElement(devices, mac, entityId, entity, now);
    assert entityId in r[mac].entities;
  }
}
