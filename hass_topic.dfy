/** The MQTT topic names the Home Assistant integration uses
    (doorctrl/src/hass/topic.rs): each is a fixed prefix, the 12-character
    device id, and a fixed suffix, built in a zeroed array of exactly that
    length. */
module HassTopic {
  import opened Common
  import ConfigValue

  /** A device id: the 12 hex characters of the MAC address. */
  type DeviceId = s: seq<byte> | |s| == 12 witness Zeros(12)

  const TOPIC_PREFIX: seq<byte> := Str("doorctl/")
  const SUFFIX_AVAILABILITY: seq<byte> := Str("/avail")
  const SUFFIX_LOCK_COMMAND: seq<byte> := Str("/lock/cmd/")
  const SUFFIX_LOCK_STATE: seq<byte> := Str("/lock/state")
  const SUFFIX_SENSOR_STATE: seq<byte> := Str("/reed/state")
  const DISCOVERY_PREFIX: seq<byte> := Str("homeassistant/device/")
  const DISCOVERY_SUFFIX: seq<byte> := Str("/config")

  const SENSOR_STATE_LEN: nat := |TOPIC_PREFIX| + 12 + |SUFFIX_SENSOR_STATE|
  const LOCK_STATE_LEN: nat := |TOPIC_PREFIX| + 12 + |SUFFIX_LOCK_STATE|
  const AVAILABILITY_LEN: nat := |TOPIC_PREFIX| + 12 + |SUFFIX_AVAILABILITY|
  const LOCK_COMMAND_LEN: nat := |TOPIC_PREFIX| + 12 + |SUFFIX_LOCK_COMMAND|
  const DISCOVERY_LEN: nat := |DISCOVERY_PREFIX| + 12 + |DISCOVERY_SUFFIX|

  /** The topic a builder produces. */
  function Topic(prefix: seq<byte>, id: DeviceId, suffix: seq<byte>): (r: seq<byte>)
    ensures |r| == |prefix| + 12 + |suffix|
    ensures r[..|prefix|] == prefix && r[|prefix|..|prefix| + 12] == id && r[|prefix| + 12..] == suffix
  {
    prefix + id + suffix
  }

  function AvailabilityTopic(id: DeviceId): seq<byte> { Topic(TOPIC_PREFIX, id, SUFFIX_AVAILABILITY) }
  function LockCommandTopic(id: DeviceId): seq<byte> { Topic(TOPIC_PREFIX, id, SUFFIX_LOCK_COMMAND) }
  function LockStateTopic(id: DeviceId): seq<byte> { Topic(TOPIC_PREFIX, id, SUFFIX_LOCK_STATE) }
  function SensorStateTopic(id: DeviceId): seq<byte> { Topic(TOPIC_PREFIX, id, SUFFIX_SENSOR_STATE) }
  function DiscoveryTopic(id: DeviceId): seq<byte> { Topic(DISCOVERY_PREFIX, id, DISCOVERY_SUFFIX) }

  /** The shared body of the five `mk_*_topic` builders: a zeroed array of the
      topic's length, then three `copy_from_slice` calls. */
  method MkTopic(prefix: seq<byte>, id: DeviceId, suffix: seq<byte>) returns (topic: array<byte>)
    ensures fresh(topic)
    ensures topic[..] == Topic(prefix, id, suffix)
  {
    topic := new byte[|prefix| + 12 + |suffix|](_ => 0);
    var deviceIdOffset := |prefix|;
    var suffixOffset := deviceIdOffset + |id|;
    ConfigValue.Put(topic, 0, prefix);
    assert topic[..deviceIdOffset] == prefix;
    ConfigValue.Put(topic, deviceIdOffset, id);
    assert topic[..suffixOffset] == prefix + id;
    ConfigValue.Put(topic, suffixOffset, suffix);
    assert topic[..] == topic[..suffixOffset + |suffix|];
  }

  method MkAvailabilityTopic(id: DeviceId) returns (topic: array<byte>)
    ensures fresh(topic) && topic.Length == AVAILABILITY_LEN
    ensures topic[..] == AvailabilityTopic(id)
  {
    topic := MkTopic(TOPIC_PREFIX, id, SUFFIX_AVAILABILITY);
  }

  method MkLockCommandTopic(id: DeviceId) returns (topic: array<byte>)
    ensures fresh(topic) && topic.Length == LOCK_COMMAND_LEN
    ensures topic[..] == LockCommandTopic(id)
  {
    topic := MkTopic(TOPIC_PREFIX, id, SUFFIX_LOCK_COMMAND);
  }

  method MkLockStateTopic(id: DeviceId) returns (topic: array<byte>)
    ensures fresh(topic) && topic.Length == LOCK_STATE_LEN
    ensures topic[..] == LockStateTopic(id)
  {
    topic := MkTopic(TOPIC_PREFIX, id, SUFFIX_LOCK_STATE);
  }

  method MkSensorStateTopic(id: DeviceId) returns (topic: array<byte>)
    ensures fresh(topic) && topic.Length == SENSOR_STATE_LEN
    ensures topic[..] == SensorStateTopic(id)
  {
    topic := MkTopic(TOPIC_PREFIX, id, SUFFIX_SENSOR_STATE);
  }

  method MkDiscoveryTopic(id: DeviceId) returns (topic: array<byte>)
    ensures fresh(topic) && topic.Length == DISCOVERY_LEN
    ensures topic[..] == DiscoveryTopic(id)
  {
    topic := MkTopic(DISCOVERY_PREFIX, id, DISCOVERY_SUFFIX);
  }

  /** The length constants: availability 26, lock command 30, lock and reed
      state 31, discovery 40. */
  lemma TopicLengths()
    ensures AVAILABILITY_LEN == 26 && LOCK_COMMAND_LEN == 30
    ensures LOCK_STATE_LEN == 31 && SENSOR_STATE_LEN == 31 && DISCOVERY_LEN == 40
  {
  }

  /** The device id sits at bytes [8, 20) of the doorctl topics and at
      [21, 33) of the discovery topic, so it can be read back out of each. */
  lemma DeviceIdAt(id: DeviceId)
    ensures AvailabilityTopic(id)[8..20] == id
    ensures LockCommandTopic(id)[8..20] == id
    ensures LockStateTopic(id)[8..20] == id
    ensures SensorStateTopic(id)[8..20] == id
    ensures DiscoveryTopic(id)[21..33] == id
  {
  }

  /** Distinct devices get distinct topics. */
  lemma TopicsInjective(a: DeviceId, b: DeviceId)
    ensures AvailabilityTopic(a) == AvailabilityTopic(b) ==> a == b
    ensures LockCommandTopic(a) == LockCommandTopic(b) ==> a == b
    ensures LockStateTopic(a) == LockStateTopic(b) ==> a == b
    ensures SensorStateTopic(a) == SensorStateTopic(b) ==> a == b
    ensures DiscoveryTopic(a) == DiscoveryTopic(b) ==> a == b
  {
    DeviceIdAt(a);
    DeviceIdAt(b);
  }

  /** The five topics of one device are pairwise different: four differ in
      length, and the lock and reed state topics differ right after the id. */
  lemma TopicsDistinct(id: DeviceId)
    ensures LockStateTopic(id) != SensorStateTopic(id)
    ensures |AvailabilityTopic(id)| < |LockCommandTopic(id)| < |LockStateTopic(id)| < |DiscoveryTopic(id)|
    ensures |SensorStateTopic(id)| == |LockStateTopic(id)|
  {
    assert LockStateTopic(id)[21] == 'l' as int;
    assert SensorStateTopic(id)[21] == 'r' as int;
  }

  /** Every topic of an id in ASCII is valid UTF-8, so the `from_utf8(..)
      .unwrap()` calls that turn them into `&str` cannot fail for a hex id. */
  lemma TopicsAreUtf8(prefix: seq<byte>, id: DeviceId, suffix: seq<byte>)
    requires IsAscii(prefix) && IsAscii(id) && IsAscii(suffix)
    ensures ValidUtf8(Topic(prefix, id, suffix))
  {
    var t := Topic(prefix, id, suffix);
    forall i | 0 <= i < |t|
      ensures t[i] < 0x80
    {
      if i < |prefix| {
        assert t[i] == prefix[i];
      } else if i < |prefix| + 12 {
        assert t[i] == id[i - |prefix|];
      } else {
        assert t[i] == suffix[i - |prefix| - 12];
      }
    }
    AsciiIsUtf8(t);
  }

  lemma AffixesAscii()
    ensures IsAscii(TOPIC_PREFIX) && IsAscii(DISCOVERY_PREFIX) && IsAscii(DISCOVERY_SUFFIX)
    ensures IsAscii(SUFFIX_AVAILABILITY) && IsAscii(SUFFIX_LOCK_COMMAND)
    ensures IsAscii(SUFFIX_LOCK_STATE) && IsAscii(SUFFIX_SENSOR_STATE)
  {
  }

  /** With the id "aabbccddeeff" the lock command topic is
      "doorctl/aabbccddeeff/lock/cmd/", trailing slash included. */
  lemma LockCommandExample()
    ensures LockCommandTopic(Str("aabbccddeeff")) == Str("doorctl/aabbccddeeff/lock/cmd/")
  {
    StrAppend("doorctl/", "aabbccddeeff");
    StrAppend("doorctl/aabbccddeeff", "/lock/cmd/");
  }
}
