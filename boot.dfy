/** What the two firmware binaries decide at boot (firmware/src/bin/main.rs and
    doorctrl/src/bin/main.rs): the device id made from the base MAC address,
    and which mode or network the stored configuration selects. */
module Boot {
  import opened Common
  import opened ConfigValue
  import Config
  import ConfCrate
  import HassTopic

  // ---------------------------------------------------------------------------
  // The device id

  type Mac = s: seq<byte> | |s| == 6 witness Zeros(6)

  predicate IsLowerHex(c: byte) {
    48 <= c <= 57 || 97 <= c <= 102
  }

  /** `nybble_to_hex`: '0'..'9' for 0..9, 'a'.. from 10 on; above 168 the
      `u8` addition would overflow. */
  function NybbleToHex(n: byte): (c: byte)
    requires n < 169
    ensures n < 16 ==> IsLowerHex(c)
  {
    if n < 10 then 48 + n else 97 + (n - 10)
  }

  /** The value of a lower-case hex digit. */
  function HexValue(c: byte): (n: nat)
    requires IsLowerHex(c)
    ensures n < 16
  {
    if c <= 57 then c - 48 else c - 87
  }

  lemma HexValueOf(n: byte)
    requires n < 16
    ensures HexValue(NybbleToHex(n)) == n
  {
  }

  /** `u << 4 >> 4` on a `u8`: the shift left drops the high nybble. */
  function LowNybble(u: byte): byte {
    (u * 16 % 256) / 16
  }

  /** `u8_to_hex`: the high nybble's digit, then the low nybble's. */
  function U8ToHex(u: byte): (r: seq<byte>)
    ensures |r| == 2 && IsLowerHex(r[0]) && IsLowerHex(r[1])
  {
    LowNybbleIsRemainder(u);
    [NybbleToHex(u / 16), NybbleToHex(LowNybble(u))]
  }

  lemma LowNybbleIsRemainder(u: byte)
    ensures LowNybble(u) == u % 16
  {
    var q := u / 16;
    assert u == 16 * q + u % 16;
    assert u * 16 == 256 * q + (u % 16) * 16;
  }

  /** The two digits read back as the byte. */
  lemma U8ToHexValue(u: byte)
    ensures HexValue(U8ToHex(u)[0]) * 16 + HexValue(U8ToHex(u)[1]) == u
  {
    LowNybbleIsRemainder(u);
    HexValueOf(u / 16);
    HexValueOf(u % 16);
  }

  /** Position `j` of the device id: digit `j % 2` of MAC byte `j / 2`. */
  function MacHexAt(mac: Mac, j: int): byte {
    if 0 <= j < 12 then U8ToHex(mac[j / 2])[j % 2] else 0
  }

  /** The device id of `mac`: twelve lower-case hex digits. */
  function MacHex(mac: Mac): (id: HassTopic.DeviceId)
    ensures forall j :: 0 <= j < 12 ==> id[j] == MacHexAt(mac, j) && IsLowerHex(id[j])
  {
    seq(12, j => MacHexAt(mac, j))
  }

  /** Reading a device id back as the MAC bytes. */
  function ParseHex(id: seq<byte>): (mac: Mac)
    requires |id| == 12 && forall j :: 0 <= j < 12 ==> IsLowerHex(id[j])
  {
    seq(6, i requires 0 <= i < 6 => HexValue(id[2 * i]) * 16 + HexValue(id[2 * i + 1]))
  }

  /** Parsing inverts `mac_to_hex` ... */
  lemma ParseMacHex(mac: Mac)
    ensures ParseHex(MacHex(mac)) == mac
  {
    var id := MacHex(mac);
    forall i | 0 <= i < 6
      ensures ParseHex(id)[i] == mac[i]
    {
      ParseMacHexAt(mac, i);
    }
  }

  lemma ParseMacHexAt(mac: Mac, i: nat)
    requires i < 6
    ensures ParseHex(MacHex(mac))[i] == mac[i]
  {
    var id := MacHex(mac);
    assert id[2 * i] == U8ToHex(mac[i])[0];
    assert id[2 * i + 1] == U8ToHex(mac[i])[1];
    U8ToHexValue(mac[i]);
  }

  /** ... so distinct MAC addresses give distinct device ids. */
  lemma MacHexInjective(a: Mac, b: Mac)
    requires MacHex(a) == MacHex(b)
    ensures a == b
  {
    ParseMacHex(a);
    ParseMacHex(b);
  }

  /** `mac_to_hex`: the digits of `mac[idx]` go to `2 * idx` and `2 * idx + 1`. */
  method MacToHex(mac: Mac) returns (hex: array<byte>)
    ensures fresh(hex)
    ensures hex[..] == MacHex(mac)
  {
    hex := new byte[12](_ => 0);
    for idx := 0 to 6
      invariant forall j :: 0 <= j < 2 * idx ==> hex[j] == MacHexAt(mac, j)
    {
      var pair := U8ToHex(mac[idx]);
      hex[idx * 2] := pair[0];
      hex[idx * 2 + 1] := pair[1];
    }
  }

  // ---------------------------------------------------------------------------
  // The firmware: normal mode or setup mode

  datatype Mode = NormalMode(config: Config.Record) | SetupMode(reason: ConfigError)

  /** The mode the firmware enters for a flash holding `data`. */
  function FirmwareMode(readFails: bool, data: seq<byte>): Mode {
    if readFails || |data| < Config.RECORD then SetupMode(ReadFailed)
    else match Config.DecodeSpec(data[..Config.RECORD])
      case Ok(c) => NormalMode(c)
      case Err(e) => SetupMode(e)
  }

  /** Boot: `ConfigV1::load`, then normal mode with the configuration exactly
      when it loads. */
  method FirmwareBoot(flash: NorFlash) returns (mode: Mode)
    ensures mode == FirmwareMode(flash.readFails, flash.data)
  {
    var config := Config.ConfigV1.Load(flash);
    match config {
      case Ok(cfg) =>
        mode := NormalMode(cfg.Value());
      case Err(e) =>
        mode := SetupMode(e);
    }
  }

  /** A configuration saved from setup mode is booted with in normal mode. */
  lemma FirmwareBootsSaved(c: Config.Record, data: seq<byte>)
    requires c.Marked() && |data| >= ERASE_LEN
    ensures FirmwareMode(false, Programmed(Erased(data, 0, ERASE_LEN), 0, Config.Layout(c))) == NormalMode(c)
  {
    Config.SaveThenLoad(c, data);
  }

  /** Flash that was erased and never written sends the firmware to setup mode. */
  lemma FirmwareBootsErased(data: seq<byte>)
    requires |data| >= ERASE_LEN
    ensures FirmwareMode(false, Erased(data, 0, ERASE_LEN)) == SetupMode(NoConfig)
  {
    var e := Erased(data, 0, ERASE_LEN);
    Config.DecodeErrors(e[..Config.RECORD]);
    assert e[..Config.RECORD][0] == 0xFF != MAGIC[0];
  }

  // ---------------------------------------------------------------------------
  // doorctrl: station with MQTT, or access point

  datatype Interface = Station | AccessPoint

  datatype NetConfig = Dhcp | Static(address: seq<byte>, prefixLen: nat)

  const AP_ADDRESS: seq<byte> := [192, 168, 0, 1]

  /** What doorctrl starts: the Wi-Fi interface and its addressing, the Wi-Fi
      client's credentials (the access point when absent), the MQTT service's
      host, user and password (no MQTT when absent), and the configuration the
      web tasks are given. */
  datatype Plan = Plan(
    iface: Interface,
    net: NetConfig,
    wifiClient: Option<(Slot, Slot)>,
    mqtt: Option<(Slot, Slot, Slot)>,
    web: ConfCrate.Record)

  /** The configuration `load` yields, if any. */
  function Loaded(readFails: bool, data: seq<byte>): Option<ConfCrate.Record> {
    if readFails || |data| < ConfCrate.RECORD then None
    else match ConfCrate.LoadSpec(data[..ConfCrate.RECORD])
      case Ok(c) => Some(c)
      case Err(_) => None
  }

  function PlanFor(config: Option<ConfCrate.Record>): Plan {
    match config
    case Some(c) => Plan(Station, Dhcp, Some((c.wifiSsid, c.wifiPass)), Some((c.mqttHost, c.mqttUser, c.mqttPass)), c)
    case None => Plan(AccessPoint, Static(AP_ADDRESS, 24), None, None, ConfCrate.DEFAULT)
  }

  /** Boot: a failed load proceeds as unconfigured: access point at
      192.168.0.1/24 and no MQTT. A loaded configuration joins its Wi-Fi over
      DHCP and starts MQTT with its broker credentials. */
  method DoorctrlBoot(flash: NorFlash) returns (plan: Plan)
    ensures plan == PlanFor(Loaded(flash.readFails, flash.data))
  {
    var loaded := ConfCrate.ConfigV1.Load(flash);
    var config: Option<ConfCrate.Record> := None;
    if loaded.Ok? {
      config := Some(loaded.value.Value());
    }
    var iface := Station;
    var net := Dhcp;
    var wifiClient := None;
    match config {
      case Some(c) =>
        wifiClient := Some((c.wifiSsid, c.wifiPass));
      case None =>
        net := Static(AP_ADDRESS, 24);
        iface := AccessPoint;
    }
    var mqtt := None;
    if config.Some? {
      var c := config.value;
      mqtt := Some((c.mqttHost, c.mqttUser, c.mqttPass));
    }
    var web := if config.Some? then config.value else ConfCrate.DEFAULT;
    plan := Plan(iface, net, wifiClient, mqtt, web);
  }

  /** The station interface, DHCP, the Wi-Fi client and MQTT go together; the
      access point always has the static address and the default
      configuration; MQTT uses the broker of the configuration the web tasks
      see. */
  lemma PlanConsistent(config: Option<ConfCrate.Record>)
    ensures PlanFor(config).iface == Station <==> config.Some?
    ensures PlanFor(config).mqtt.Some? <==> PlanFor(config).iface == Station
    ensures PlanFor(config).wifiClient.Some? <==> PlanFor(config).iface == Station
    ensures PlanFor(config).net == Dhcp <==> PlanFor(config).iface == Station
    ensures PlanFor(config).iface == AccessPoint ==>
              PlanFor(config).net == Static([192, 168, 0, 1], 24) && PlanFor(config).web == ConfCrate.DEFAULT
    ensures PlanFor(config).mqtt.Some? ==>
              var w := PlanFor(config).web;
              PlanFor(config).mqtt.value == (w.mqttHost, w.mqttUser, w.mqttPass)
  {
  }

  /** A configuration saved through the setup page brings doorctrl up as a
      station with MQTT. */
  lemma DoorctrlBootsSaved(c: ConfCrate.Record, data: seq<byte>)
    requires c.Marked() && |data| >= ERASE_LEN
    ensures PlanFor(Loaded(false, Programmed(Erased(data, 0, ERASE_LEN), 0, ConfCrate.Layout(c))))
            == Plan(Station, Dhcp, Some((c.wifiSsid, c.wifiPass)), Some((c.mqttHost, c.mqttUser, c.mqttPass)), c)
  {
    ConfCrate.SaveThenLoad(c, data);
  }
}
