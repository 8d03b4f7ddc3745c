/** The oldest configuration record (doorctrl/src/conf/mod.rs): seven text slots,
    an `update` that takes every supplied value, and a `save` that writes
    without a completeness check or an erase. */
module DoorctrlConf {
  import opened Common
  import opened ConfigValue

  /** `size_of::<ConfigV1>()`: seven slots. */
  const RECORD: nat := 7 * SLOT
  const POST_AT: nat := 6 * SLOT

  datatype Record = Record(
    preMagic: Slot,
    deviceName: Slot,
    wifiSsid: Slot,
    wifiPass: Slot,
    mqttHost: Slot,
    mqttPass: Slot,
    postMagic: Slot)
  {
    predicate Marked() {
      ConfigValue.Marked(preMagic) && ConfigValue.Marked(postMagic)
    }
  }

  /** `ConfigV1::default()`. */
  const DEFAULT: Record := Record(MAGIC_SLOT, EMPTY, EMPTY, EMPTY, EMPTY, EMPTY, MAGIC_SLOT)

  /** The value visitor of the serde deserializer: at most 64 bytes, NUL-padded. */
  function Deserialize(v: seq<byte>): (r: Result<Slot, ConfigError>)
    ensures r.Ok? <==> |v| <= SLOT
    ensures r.Err? ==> r.error == ValueTooLong
  {
    if |v| > SLOT then Err(ValueTooLong) else Ok(v + Zeros(SLOT - |v|))
  }

  /** It accepts exactly what the later `try_from` accepts, and pads the same
      way; only the error text differs. */
  lemma DeserializeIsTryFrom(v: seq<byte>)
    ensures Deserialize(v).Ok? <==> TryFrom(v).Ok?
    ensures Deserialize(v).Ok? ==> Deserialize(v).value == TryFrom(v).value
    ensures Deserialize(v).Err? ==> Message(Deserialize(v).error) != Message(TryFrom(v).error)
  {
  }

  datatype ConfigUpdate = ConfigUpdate(
    deviceName: Option<Slot>,
    wifiSsid: Option<Slot>,
    wifiPass: Option<Slot>,
    mqttHost: Option<Slot>,
    mqttPass: Option<Slot>)

  function Take(cur: Slot, upd: Option<Slot>): (r: Slot)
    ensures upd.Some? ==> r == upd.value
    ensures upd.None? ==> r == cur
  {
    if upd.Some? then upd.value else cur
  }

  /** The record `update` leaves: every supplied value is taken, empty or not. */
  function Updated(c: Record, u: ConfigUpdate): Record {
    Record(
      c.preMagic,
      Take(c.deviceName, u.deviceName),
      Take(c.wifiSsid, u.wifiSsid),
      Take(c.wifiPass, u.wifiPass),
      Take(c.mqttHost, u.mqttHost),
      Take(c.mqttPass, u.mqttPass),
      c.postMagic)
  }

  /** Unlike the later generations, an update that supplies an empty value
      empties the field. */
  lemma UpdateClears(c: Record, u: ConfigUpdate)
    requires u.deviceName == Some(EMPTY)
    ensures Updated(c, u).deviceName == EMPTY && AsStr(Updated(c, u).deviceName) == []
    ensures Updated(c, u).preMagic == c.preMagic && Updated(c, u).postMagic == c.postMagic
  {
  }

  lemma UpdateIdempotent(c: Record, u: ConfigUpdate)
    ensures Updated(Updated(c, u), u) == Updated(c, u)
  {
  }

  /** The bytes `save` writes: the slots in field order. */
  function Layout(c: Record): (r: seq<byte>)
    ensures |r| == RECORD
    ensures r[..SLOT] == c.preMagic && r[POST_AT..] == c.postMagic
  {
    c.preMagic + c.deviceName + c.wifiSsid + c.wifiPass + c.mqttHost + c.mqttPass + c.postMagic
  }

  function Fields(b: seq<byte>): Record
    requires |b| >= RECORD
  {
    Record(b[..64], b[64..128], b[128..192], b[192..256], b[256..320], b[320..384], b[384..448])
  }

  /** What `load` makes of the bytes it read: no config unless the first slot
      starts with the magic, a corrupt one unless the last slot does too. */
  function LoadSpec(b: seq<byte>): (r: Result<Record, ConfigError>)
    requires |b| >= RECORD
    ensures r.Err? ==> r.error in {NoConfig, Corrupt}
    ensures r.Ok? ==> r.value.Marked()
  {
    var c := Fields(b);
    if !ConfigValue.Marked(c.preMagic) then Err(NoConfig)
    else if !ConfigValue.Marked(c.postMagic) then Err(Corrupt)
    else Ok(c)
  }

  lemma LoadErrors(b: seq<byte>)
    requires |b| >= RECORD
    ensures LoadSpec(b) == Err(NoConfig) <==> b[..|MAGIC|] != MAGIC
    ensures LoadSpec(b) == Err(Corrupt) <==> b[..|MAGIC|] == MAGIC && b[POST_AT..POST_AT + |MAGIC|] != MAGIC
  {
    var c := Fields(b);
    assert c.preMagic[..|MAGIC|] == b[..|MAGIC|];
    assert c.postMagic[..|MAGIC|] == b[POST_AT..POST_AT + |MAGIC|];
  }

  lemma LoadLayout(c: Record, rest: seq<byte>)
    requires c.Marked()
    ensures LoadSpec(Layout(c) + rest) == Ok(c)
  {
    var b := Layout(c) + rest;
    assert b[..64] == c.preMagic;
    assert b[64..128] == c.deviceName;
    assert b[128..192] == c.wifiSsid;
    assert b[192..256] == c.wifiPass;
    assert b[256..320] == c.mqttHost;
    assert b[320..384] == c.mqttPass;
    assert b[384..448] == c.postMagic;
  }

  /** Storage overwrites, so what `save` wrote reads back as the saved record
      whatever the storage held before. */
  lemma SaveThenLoad(c: Record, data: seq<byte>)
    requires c.Marked() && |data| >= RECORD
    ensures LoadSpec(Overwritten(data, 0, Layout(c))[..RECORD]) == Ok(c)
  {
    var stored := Overwritten(data, 0, Layout(c));
    assert stored[..RECORD] == Layout(c) + [];
    LoadLayout(c, []);
  }

  class ConfigV1 {
    var preMagic: Slot
    var deviceName: Slot
    var wifiSsid: Slot
    var wifiPass: Slot
    var mqttHost: Slot
    var mqttPass: Slot
    var postMagic: Slot

    function Value(): Record
      reads this
    {
      Record(preMagic, deviceName, wifiSsid, wifiPass, mqttHost, mqttPass, postMagic)
    }

    /** `ConfigV1::default()`. */
    constructor Default()
      ensures Value() == DEFAULT
    {
      preMagic, deviceName, wifiSsid, wifiPass := MAGIC_SLOT, EMPTY, EMPTY, EMPTY;
      mqttHost, mqttPass, postMagic := EMPTY, EMPTY, MAGIC_SLOT;
    }

    constructor Of(c: Record)
      ensures Value() == c
    {
      preMagic, deviceName, wifiSsid, wifiPass := c.preMagic, c.deviceName, c.wifiSsid, c.wifiPass;
      mqttHost, mqttPass, postMagic := c.mqttHost, c.mqttPass, c.postMagic;
    }

    /** `update`. */
    method Update(u: ConfigUpdate)
      modifies this
      ensures Value() == Updated(old(Value()), u)
    {
      if u.deviceName.Some? {
        deviceName := u.deviceName.value;
      }
      if u.wifiSsid.Some? {
        wifiSsid := u.wifiSsid.value;
      }
      if u.wifiPass.Some? {
        wifiPass := u.wifiPass.value;
      }
      if u.mqttHost.Some? {
        mqttHost := u.mqttHost.value;
      }
      if u.mqttPass.Some? {
        mqttPass := u.mqttPass.value;
      }
    }

    /** `load`: read a record's worth from the start of the storage, copy the
        slots out, then check both magic slots. */
    static method Load(src: Storage) returns (r: Result<ConfigV1, ConfigError>)
      ensures src.readFails || |src.data| < RECORD ==> r == Err(ReadFailed)
      ensures !src.readFails && |src.data| >= RECORD ==>
                && (r.Err? ==> LoadSpec(src.data[..RECORD]) == Err(r.error))
                && (r.Ok? ==> fresh(r.value) && LoadSpec(src.data[..RECORD]) == Ok(r.value.Value()))
    {
      var read := src.Read(0, RECORD);
      if read.None? {
        return Err(ReadFailed);
      }
      var c := Fields(read.value);
      if c.preMagic[..|MAGIC|] != MAGIC {
        return Err(NoConfig);
      }
      if c.postMagic[..|MAGIC|] != MAGIC {
        return Err(Corrupt);
      }
      var config := new ConfigV1.Of(c);
      return Ok(config);
    }

    /** The encoding `save` does inline. */
    method Encode(buf: array<byte>)
      requires buf.Length == RECORD
      modifies buf
      ensures buf[..] == Layout(Value())
    {
      Put(buf, 0, preMagic);
      assert buf[..64] == preMagic;
      Put(buf, 64, deviceName);
      assert buf[..128] == preMagic + deviceName;
      Put(buf, 128, wifiSsid);
      assert buf[..192] == preMagic + deviceName + wifiSsid;
      Put(buf, 192, wifiPass);
      assert buf[..256] == preMagic + deviceName + wifiSsid + wifiPass;
      Put(buf, 256, mqttHost);
      ghost var front := preMagic + deviceName + wifiSsid + wifiPass + mqttHost;
      assert buf[..320] == front;
      Put(buf, 320, mqttPass);
      assert buf[..384] == front + mqttPass;
      Put(buf, 384, postMagic);
      assert buf[..] == buf[..RECORD];
    }

    /** `save`: write the record at the start of the storage, complete or not. */
    method Save(dst: Storage) returns (r: Result<(), ConfigError>)
      modifies dst
      ensures dst.writeFails || |old(dst.data)| < RECORD ==> r == Err(WriteFailed) && dst.data == old(dst.data)
      ensures !dst.writeFails && |old(dst.data)| >= RECORD ==>
                r == Ok(()) && dst.data == Overwritten(old(dst.data), 0, Layout(Value()))
    {
      var writeBuf := new byte[RECORD](_ => 0);
      Encode(writeBuf);
      var written := dst.Write(0, writeBuf[..]);
      if !written {
        return Err(WriteFailed);
      }
      return Ok(());
    }
  }
}
