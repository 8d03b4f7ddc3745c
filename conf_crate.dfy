/** The configuration record of the `conf` crate (conf/src/lib.rs), the
    generation before doorctrl/src/config.rs: eight text slots and no port or
    TLS fields. `load` decodes and `save` encodes inline. */
module ConfCrate {
  import opened Common
  import opened ConfigValue

  /** `size_of::<ConfigV1>()`: eight slots. */
  const RECORD: nat := 8 * SLOT
  const POST_AT: nat := 7 * SLOT

  datatype Record = Record(
    preMagic: Slot,
    deviceName: Slot,
    wifiSsid: Slot,
    wifiPass: Slot,
    mqttHost: Slot,
    mqttUser: Slot,
    mqttPass: Slot,
    postMagic: Slot)
  {
    /** `complete`: the device name, the Wi-Fi credentials, the MQTT host and
        the MQTT password are set; the MQTT user may be empty. */
    predicate Complete() {
      deviceName[0] != 0 && wifiSsid[0] != 0 && wifiPass[0] != 0 && mqttHost[0] != 0 && mqttPass[0] != 0
    }

    predicate Marked() {
      ConfigValue.Marked(preMagic) && ConfigValue.Marked(postMagic)
    }
  }

  /** `ConfigV1::default()`. */
  const DEFAULT: Record := Record(MAGIC_SLOT, EMPTY, EMPTY, EMPTY, EMPTY, EMPTY, EMPTY, MAGIC_SLOT)

  lemma DefaultMarkedIncomplete()
    ensures DEFAULT.Marked() && !DEFAULT.Complete()
  {
    MagicSlotMarked();
  }

  datatype ConfigUpdate = ConfigUpdate(
    deviceName: Option<Slot>,
    wifiSsid: Option<Slot>,
    wifiPass: Option<Slot>,
    mqttHost: Option<Slot>,
    mqttUser: Option<Slot>,
    mqttPass: Option<Slot>)

  /** The record `update` leaves: each text field takes a supplied value whose
      first byte is not NUL. */
  function Updated(c: Record, u: ConfigUpdate): Record {
    Record(
      c.preMagic,
      Pick(c.deviceName, u.deviceName),
      Pick(c.wifiSsid, u.wifiSsid),
      Pick(c.wifiPass, u.wifiPass),
      Pick(c.mqttHost, u.mqttHost),
      Pick(c.mqttUser, u.mqttUser),
      Pick(c.mqttPass, u.mqttPass),
      c.postMagic)
  }

  lemma UpdatedIs(r: Record, c: Record, u: ConfigUpdate)
    requires r.preMagic == c.preMagic && r.postMagic == c.postMagic
    requires r.deviceName == Pick(c.deviceName, u.deviceName) && r.wifiSsid == Pick(c.wifiSsid, u.wifiSsid)
    requires r.wifiPass == Pick(c.wifiPass, u.wifiPass) && r.mqttHost == Pick(c.mqttHost, u.mqttHost)
    requires r.mqttUser == Pick(c.mqttUser, u.mqttUser) && r.mqttPass == Pick(c.mqttPass, u.mqttPass)
    ensures r == Updated(c, u)
  {
  }

  /** An update never empties a field: a complete record stays complete, and the
      magic is left alone. */
  lemma UpdateKeepsComplete(c: Record, u: ConfigUpdate)
    ensures Updated(c, u).preMagic == c.preMagic && Updated(c, u).postMagic == c.postMagic
    ensures c.Complete() ==> Updated(c, u).Complete()
  {
    if c.Complete() {
      PickKeepsFilled(c.deviceName, u.deviceName);
      PickKeepsFilled(c.wifiSsid, u.wifiSsid);
      PickKeepsFilled(c.wifiPass, u.wifiPass);
      PickKeepsFilled(c.mqttHost, u.mqttHost);
      PickKeepsFilled(c.mqttPass, u.mqttPass);
    }
  }

  lemma UpdateIdempotent(c: Record, u: ConfigUpdate)
    ensures Updated(Updated(c, u), u) == Updated(c, u)
  {
  }

  /** The bytes `save` writes: the slots in field order. */
  function Layout(c: Record): (r: seq<byte>)
    ensures |r| == RECORD
    ensures r[..SLOT] == c.preMagic && r[POST_AT..] == c.postMagic
  {
    c.preMagic + c.deviceName + c.wifiSsid + c.wifiPass + c.mqttHost + c.mqttUser + c.mqttPass + c.postMagic
  }

  /** The slots at their places in a buffer that holds a whole record. */
  function Fields(b: seq<byte>): Record
    requires |b| >= RECORD
  {
    Record(b[..64], b[64..128], b[128..192], b[192..256], b[256..320], b[320..384], b[384..448], b[448..512])
  }

  /** What `load` makes of the bytes it read: no config unless the first slot
      starts with the magic, a corrupt one unless the last slot does too. */
  function LoadSpec(b: seq<byte>): (r: Result<Record, ConfigError>)
    requires |b| >= RECORD
    ensures r.Err? ==> r.error in {NoConfig, Corrupt}
    ensures r.Ok? ==> r.value.Marked()
  {
    var c := Fields(b);
    if !ConfigValue.Marked(c.preMagic) then Err(NoConfig)
    else if !ConfigValue.Marked(c.postMagic) then Err(Corrupt)
    else Ok(c)
  }

  lemma LoadErrors(b: seq<byte>)
    requires |b| >= RECORD
    ensures LoadSpec(b) == Err(NoConfig) <==> b[..|MAGIC|] != MAGIC
    ensures LoadSpec(b) == Err(Corrupt) <==> b[..|MAGIC|] == MAGIC && b[POST_AT..POST_AT + |MAGIC|] != MAGIC
  {
    var c := Fields(b);
    assert c.preMagic[..|MAGIC|] == b[..|MAGIC|];
    assert c.postMagic[..|MAGIC|] == b[POST_AT..POST_AT + |MAGIC|];
  }

  /** Reading back what was laid out gives the record. */
  lemma LoadLayout(c: Record, rest: seq<byte>)
    requires c.Marked()
    ensures LoadSpec(Layout(c) + rest) == Ok(c)
  {
    var b := Layout(c) + rest;
    assert b[..64] == c.preMagic;
    assert b[64..128] == c.deviceName;
    assert b[128..192] == c.wifiSsid;
    assert b[192..256] == c.wifiPass;
    assert b[256..320] == c.mqttHost;
    assert b[320..384] == c.mqttUser;
    assert b[384..448] == c.mqttPass;
    assert b[448..512] == c.postMagic;
  }

  /** Conversely, every record `load` accepts lays out to exactly the bytes it
      came from. */
  lemma LayoutLoad(b: seq<byte>)
    requires |b| == RECORD && LoadSpec(b).Ok?
    ensures Layout(LoadSpec(b).value) == b
  {
    assert b[..128] == b[..64] + b[64..128];
    assert b[..192] == b[..128] + b[128..192];
    assert b[..256] == b[..192] + b[192..256];
    assert b[..320] == b[..256] + b[256..320];
    assert b[..384] == b[..320] + b[320..384];
    assert b[..448] == b[..384] + b[384..448];
    assert b == b[..448] + b[448..512];
  }

  /** What `save` leaves in the flash reads back as the saved record. */
  lemma SaveThenLoad(c: Record, data: seq<byte>)
    requires c.Marked() && |data| >= ERASE_LEN
    ensures LoadSpec(Programmed(Erased(data, 0, ERASE_LEN), 0, Layout(c))[..RECORD]) == Ok(c)
  {
    var stored := Programmed(Erased(data, 0, ERASE_LEN), 0, Layout(c));
    ProgramErased(data, Layout(c), ERASE_LEN);
    LoadLayout(c, []);
    assert stored[..RECORD] == Layout(c) + [];
  }

  class ConfigV1 {
    var preMagic: Slot
    var deviceName: Slot
    var wifiSsid: Slot
    var wifiPass: Slot
    var mqttHost: Slot
    var mqttUser: Slot
    var mqttPass: Slot
    var postMagic: Slot

    function Value(): Record
      reads this
    {
      Record(preMagic, deviceName, wifiSsid, wifiPass, mqttHost, mqttUser, mqttPass, postMagic)
    }

    /** `ConfigV1::default()`. */
    constructor Default()
      ensures Value() == DEFAULT
    {
      preMagic, deviceName, wifiSsid, wifiPass := MAGIC_SLOT, EMPTY, EMPTY, EMPTY;
      mqttHost, mqttUser, mqttPass, postMagic := EMPTY, EMPTY, EMPTY, MAGIC_SLOT;
    }

    /** A `ConfigV1` holding the given fields. */
    constructor Of(c: Record)
      ensures Value() == c
    {
      preMagic, deviceName, wifiSsid, wifiPass := c.preMagic, c.deviceName, c.wifiSsid, c.wifiPass;
      mqttHost, mqttUser, mqttPass, postMagic := c.mqttHost, c.mqttUser, c.mqttPass, c.postMagic;
    }

    /** `update`. */
    method Update(u: ConfigUpdate)
      modifies this
      ensures Value() == Updated(old(Value()), u)
    {
      deviceName := Pick(deviceName, u.deviceName);
      wifiSsid := Pick(wifiSsid, u.wifiSsid);
      wifiPass := Pick(wifiPass, u.wifiPass);
      mqttHost := Pick(mqttHost, u.mqttHost);
      mqttUser := Pick(mqttUser, u.mqttUser);
      mqttPass := Pick(mqttPass, u.mqttPass);
      UpdatedIs(Value(), old(Value()), u);
    }

    /** `load`: read a record's worth from the start of the flash, copy the
        slots out, then check both magic slots. */
    static method Load(src: NorFlash) returns (r: Result<ConfigV1, ConfigError>)
      ensures src.readFails || |src.data| < RECORD ==> r == Err(ReadFailed)
      ensures !src.readFails && |src.data| >= RECORD ==>
                && (r.Err? ==> LoadSpec(src.data[..RECORD]) == Err(r.error))
                && (r.Ok? ==> fresh(r.value) && LoadSpec(src.data[..RECORD]) == Ok(r.value.Value()))
    {
      var read := src.Read(0, RECORD);
      if read.None? {
        return Err(ReadFailed);
      }
      var c := Fields(read.value);
      if c.preMagic[..|MAGIC|] != MAGIC {
        return Err(NoConfig);
      }
      if c.postMagic[..|MAGIC|] != MAGIC {
        return Err(Corrupt);
      }
      var config := new ConfigV1.Of(c);
      return Ok(config);
    }

    /** The encoding `save` does inline: the slots, in order, into `buf`. */
    method Encode(buf: array<byte>)
      requires buf.Length == RECORD
      modifies buf
      ensures buf[..] == Layout(Value())
    {
      Put(buf, 0, preMagic);
      assert buf[..64] == preMagic;
      Put(buf, 64, deviceName);
      assert buf[..128] == preMagic + deviceName;
      Put(buf, 128, wifiSsid);
      assert buf[..192] == preMagic + deviceName + wifiSsid;
      Put(buf, 192, wifiPass);
      assert buf[..256] == preMagic + deviceName + wifiSsid + wifiPass;
      Put(buf, 256, mqttHost);
      ghost var front := preMagic + deviceName + wifiSsid + wifiPass + mqttHost;
      assert buf[..320] == front;
      Put(buf, 320, mqttUser);
      assert buf[..384] == front + mqttUser;
      Put(buf, 384, mqttPass);
      assert buf[..448] == front + mqttUser + mqttPass;
      Put(buf, 448, postMagic);
      assert buf[..] == buf[..RECORD];
    }

    /** `save`: refuse an incomplete record, else erase the first 4096 bytes and
        write the record there. */
    method Save(dst: NorFlash) returns (r: Result<(), ConfigError>)
      modifies dst
      ensures !Value().Complete() ==> r == Err(NotComplete) && dst.data == old(dst.data)
      ensures Value().Complete() && (dst.eraseFails || |old(dst.data)| < ERASE_LEN) ==>
                r == Err(EraseFailed) && dst.data == old(dst.data)
      ensures Value().Complete() && !dst.eraseFails && |old(dst.data)| >= ERASE_LEN ==>
                && (dst.writeFails ==> r == Err(WriteFailed) && dst.data == Erased(old(dst.data), 0, ERASE_LEN))
                && (!dst.writeFails ==> r == Ok(()) && dst.data == Programmed(Erased(old(dst.data), 0, ERASE_LEN), 0, Layout(Value())))
    {
      if !(deviceName[0] != 0 && wifiSsid[0] != 0 && wifiPass[0] != 0 && mqttHost[0] != 0 && mqttPass[0] != 0) {
        return Err(NotComplete);
      }
      var writeBuf := new byte[RECORD](_ => 0);
      Encode(writeBuf);
      var erased := dst.Erase(0, ERASE_LEN);
      if !erased {
        return Err(EraseFailed);
      }
      var written := dst.Write(0, writeBuf[..]);
      if !written {
        return Err(WriteFailed);
      }
      return Ok(());
    }
  }

  /** The update test: with the device name, Wi-Fi name and Wi-Fi password
      supplied, the device name of a default record reads back as "mydoor",
      while the MQTT host, not supplied, stays empty. */
  lemma UpdateExample(ssid: Slot, pass: Slot)
    ensures var name := TryFrom(Str("mydoor"));
            && name.Ok?
            && var c := Updated(DEFAULT, ConfigUpdate(Some(name.value), Some(ssid), Some(pass), None, None, None));
            && AsStr(c.deviceName) == Str("mydoor")
            && c.mqttHost == EMPTY
  {
    var s := Str("mydoor");
    assert IsAscii(s) && s[0] != 0;
    AsciiIsUtf8(s);
    AsStrTryFrom(s);
    var name := TryFrom(s).value;
    assert name[0] == s[0];
    assert Pick(EMPTY, Some(name)) == name;
  }
}
