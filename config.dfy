/** The persisted configuration of the doorctrl firmware (doorctrl/src/config.rs):
    a `ConfigV1` record of text slots, the MQTT port and two flags, bracketed by
    the magic, stored byte for byte at the start of the flash. */
module Config {
  import opened Common
  import opened ConfigValue

  type u16 = x: int | 0 <= x < 0x1_0000

  /** `size_of::<ConfigV1>()`: eight slots, the port and the two flags. */
  const RECORD: nat := 8 * SLOT + 4

  /** Where each field sits in the stored record. */
  const PORT_AT: nat := 5 * SLOT
  const TLS_AT: nat := 5 * SLOT + 2
  const VERIFY_AT: nat := 5 * SLOT + 3
  const POST_AT: nat := 7 * SLOT + 4

  /** The fields of a `ConfigV1`, in their stored order. */
  datatype Record = Record(
    preMagic: Slot,
    deviceName: Slot,
    wifiSsid: Slot,
    wifiPass: Slot,
    mqttHost: Slot,
    mqttPort: u16,
    mqttTls: bool,
    verifyCert: bool,
    mqttUser: Slot,
    mqttPass: Slot,
    postMagic: Slot)
  {
    /** `complete`: every field a connection needs is set. The MQTT user may be
        empty. */
    predicate Complete() {
      && deviceName[0] != 0
      && wifiSsid[0] != 0
      && wifiPass[0] != 0
      && mqttHost[0] != 0
      && mqttPass[0] != 0
      && mqttPort != 0
    }

    /** Both magic slots start with the magic. */
    predicate Marked() {
      ConfigValue.Marked(preMagic) && ConfigValue.Marked(postMagic)
    }
  }

  /** `ConfigV1::default()`. */
  const DEFAULT: Record := Record(MAGIC_SLOT, EMPTY, EMPTY, EMPTY, EMPTY, 1883, false, true, EMPTY, EMPTY, MAGIC_SLOT)

  lemma DefaultMarkedIncomplete()
    ensures DEFAULT.Marked() && !DEFAULT.Complete()
  {
    MagicSlotMarked();
  }

  /** `ConfigV1Update`: each field is optional. */
  datatype ConfigUpdate = ConfigUpdate(
    deviceName: Option<Slot>,
    wifiSsid: Option<Slot>,
    wifiPass: Option<Slot>,
    mqttHost: Option<Slot>,
    mqttPort: Option<u16>,
    mqttTls: Option<bool>,
    mqttUser: Option<Slot>,
    mqttPass: Option<Slot>)

  /** The record `update` leaves: a text field takes a supplied value whose first
      byte is not NUL, the port a supplied value other than 0, the TLS flag any
      supplied value; the magic and the certificate flag never change. */
  function Updated(c: Record, u: ConfigUpdate): Record
  {
    Record(
      c.preMagic,
      Pick(c.deviceName, u.deviceName),
      Pick(c.wifiSsid, u.wifiSsid),
      Pick(c.wifiPass, u.wifiPass),
      Pick(c.mqttHost, u.mqttHost),
      if u.mqttPort.Some? && u.mqttPort.value != 0 then u.mqttPort.value else c.mqttPort,
      if u.mqttTls.Some? then u.mqttTls.value else c.mqttTls,
      c.verifyCert,
      Pick(c.mqttUser, u.mqttUser),
      Pick(c.mqttPass, u.mqttPass),
      c.postMagic)
  }

  /** A record whose fields are the picked ones is the updated record. */
  lemma UpdatedIs(r: Record, c: Record, u: ConfigUpdate)
    requires r.preMagic == c.preMagic && r.postMagic == c.postMagic && r.verifyCert == c.verifyCert
    requires r.deviceName == Pick(c.deviceName, u.deviceName) && r.wifiSsid == Pick(c.wifiSsid, u.wifiSsid)
    requires r.wifiPass == Pick(c.wifiPass, u.wifiPass) && r.mqttHost == Pick(c.mqttHost, u.mqttHost)
    requires r.mqttPort == if u.mqttPort.Some? && u.mqttPort.value != 0 then u.mqttPort.value else c.mqttPort
    requires r.mqttTls == if u.mqttTls.Some? then u.mqttTls.value else c.mqttTls
    requires r.mqttUser == Pick(c.mqttUser, u.mqttUser) && r.mqttPass == Pick(c.mqttPass, u.mqttPass)
    ensures r == Updated(c, u)
  {
  }

  /** What `update` changes: the magic and the certificate flag never; the port
      only to a supplied value other than 0; the TLS flag to any supplied value. */
  lemma UpdatedFields(c: Record, u: ConfigUpdate)
    ensures var r := Updated(c, u);
            && r.preMagic == c.preMagic && r.postMagic == c.postMagic
            && r.verifyCert == c.verifyCert
            && (r.mqttPort != c.mqttPort ==> u.mqttPort == Some(r.mqttPort) && r.mqttPort != 0)
            && (u.mqttPort.Some? && u.mqttPort.value != 0 ==> r.mqttPort == u.mqttPort.value)
            && (u.mqttTls.Some? ==> r.mqttTls == u.mqttTls.value)
            && (u.mqttTls.None? ==> r.mqttTls == c.mqttTls)
  {
  }

  /** An update can fill fields in but never empties one: a complete record stays
      complete, and a marked one stays marked. */
  lemma UpdateKeepsComplete(c: Record, u: ConfigUpdate)
    requires c.Complete()
    ensures Updated(c, u).Complete()
  {
    PickKeepsFilled(c.deviceName, u.deviceName);
    PickKeepsFilled(c.wifiSsid, u.wifiSsid);
    PickKeepsFilled(c.wifiPass, u.wifiPass);
    PickKeepsFilled(c.mqttHost, u.mqttHost);
    PickKeepsFilled(c.mqttPass, u.mqttPass);
  }

  /** Applying the same update twice is applying it once. */
  lemma UpdateIdempotent(c: Record, u: ConfigUpdate)
    ensures Updated(Updated(c, u), u) == Updated(c, u)
  {
  }

  /** An update that supplies every required field, all filled, makes any record
      complete. */
  lemma UpdateCompletes(c: Record, u: ConfigUpdate)
    requires u.deviceName.Some? && u.deviceName.value[0] != 0
    requires u.wifiSsid.Some? && u.wifiSsid.value[0] != 0
    requires u.wifiPass.Some? && u.wifiPass.value[0] != 0
    requires u.mqttHost.Some? && u.mqttHost.value[0] != 0
    requires u.mqttPass.Some? && u.mqttPass.value[0] != 0
    requires c.mqttPort != 0 || (u.mqttPort.Some? && u.mqttPort.value != 0)
    ensures Updated(c, u).Complete()
  {
  }

  /** `mqtt_port.to_be_bytes()`. */
  function BigEndian(p: u16): (r: seq<byte>)
    ensures |r| == 2 && r[0] as int * 256 + r[1] as int == p
  {
    [p / 256, p % 256]
  }

  function Flag(b: bool): (r: byte)
    ensures (r == 1) == b && r <= 1
  {
    if b then 1 else 0
  }

  /** The bytes `encode` stores for a record. */
  function Layout(c: Record): (r: seq<byte>)
    ensures |r| == RECORD
    ensures r[..SLOT] == c.preMagic && r[POST_AT..] == c.postMagic
    ensures r[TLS_AT] <= 1 && r[VERIFY_AT] <= 1
  {
    c.preMagic + c.deviceName + c.wifiSsid + c.wifiPass + c.mqttHost
      + BigEndian(c.mqttPort) + [Flag(c.mqttTls)] + [Flag(c.verifyCert)]
      + c.mqttUser + c.mqttPass + c.postMagic
  }

  /** What `decode` makes of the first bytes of a buffer: the buffer must hold a
      whole record, the first slot must start with the magic (else no config was
      ever stored) and so must the last (else the record is corrupt). A flag is
      set when its byte is 1. */
  function DecodeSpec(b: seq<byte>): (r: Result<Record, ConfigError>)
    ensures r == Err(DecodeTooSmall) <==> |b| < RECORD
    ensures r.Err? ==> r.error in {DecodeTooSmall, NoConfig, Corrupt}
    ensures r.Ok? ==> r.value.Marked()
  {
    if |b| < RECORD then Err(DecodeTooSmall)
    else
      var c := Fields(b);
      if !ConfigValue.Marked(c.preMagic) then Err(NoConfig)
      else if !ConfigValue.Marked(c.postMagic) then Err(Corrupt)
      else Ok(c)
  }

  /** The fields at their places in a buffer that holds a whole record. */
  function Fields(b: seq<byte>): (c: Record)
    requires |b| >= RECORD
    ensures c.mqttPort == b[PORT_AT] as int * 256 + b[PORT_AT + 1] as int
  {
    Record(b[..64], b[64..128], b[128..192], b[192..256], b[256..320],
           b[320] as int * 256 + b[321] as int, b[322] == 1, b[323] == 1,
           b[324..388], b[388..452], b[452..516])
  }

  /** Which error `decode` reports: no config when the first slot lacks the
      magic, a corrupt one when only the last slot does. */
  lemma DecodeErrors(b: seq<byte>)
    ensures DecodeSpec(b) == Err(NoConfig) <==> |b| >= RECORD && b[..|MAGIC|] != MAGIC
    ensures DecodeSpec(b) == Err(Corrupt) <==> |b| >= RECORD && b[..|MAGIC|] == MAGIC && b[POST_AT..POST_AT + |MAGIC|] != MAGIC
  {
    if |b| >= RECORD {
      var c := Fields(b);
      assert c.preMagic[..|MAGIC|] == b[..|MAGIC|];
      assert c.postMagic[..|MAGIC|] == b[POST_AT..POST_AT + |MAGIC|];
    }
  }

  /** Decoding what was encoded gives the record back, whatever follows it. */
  lemma DecodeLayout(c: Record, rest: seq<byte>)
    requires c.Marked()
    ensures DecodeSpec(Layout(c) + rest) == Ok(c)
  {
    var b := Layout(c) + rest;
    assert b[..64] == c.preMagic;
    assert b[64..128] == c.deviceName;
    assert b[128..192] == c.wifiSsid;
    assert b[192..256] == c.wifiPass;
    assert b[256..320] == c.mqttHost;
    assert b[320] == c.mqttPort / 256 && b[321] == c.mqttPort % 256;
    assert b[322] == Flag(c.mqttTls) && b[323] == Flag(c.verifyCert);
    assert b[324..388] == c.mqttUser;
    assert b[388..452] == c.mqttPass;
    assert b[452..516] == c.postMagic;
    assert b[..|MAGIC|] == c.preMagic[..|MAGIC|];
    assert b[POST_AT..POST_AT + |MAGIC|] == c.postMagic[..|MAGIC|];
  }

  /** Conversely, a decoded record encodes to the bytes it came from when both
      flag bytes were 0 or 1. */
  lemma LayoutDecode(b: seq<byte>)
    requires DecodeSpec(b).Ok? && b[TLS_AT] <= 1 && b[VERIFY_AT] <= 1
    ensures Layout(DecodeSpec(b).value) == b[..RECORD]
  {
    var c := DecodeSpec(b).value;
    assert BigEndian(c.mqttPort) == b[320..322];
    assert [Flag(c.mqttTls)] == b[322..323] && [Flag(c.verifyCert)] == b[323..324];
    Slices(b[..RECORD]);
  }

  /** A record's bytes are the concatenation of its fields' places. */
  lemma Slices(b: seq<byte>)
    requires |b| == RECORD
    ensures b == b[..64] + b[64..128] + b[128..192] + b[192..256] + b[256..320]
      + b[320..322] + b[322..323] + b[323..324] + b[324..388] + b[388..452] + b[452..516]
  {
    assert b[..128] == b[..64] + b[64..128];
    assert b[..192] == b[..128] + b[128..192];
    assert b[..256] == b[..192] + b[192..256];
    assert b[..320] == b[..256] + b[256..320];
    assert b[..322] == b[..320] + b[320..322];
    assert b[..323] == b[..322] + b[322..323];
    assert b[..324] == b[..323] + b[323..324];
    assert b[..388] == b[..324] + b[324..388];
    assert b[..452] == b[..388] + b[388..452];
    assert b == b[..452] + b[452..516];
  }

  /** Saving writes the record over erased flash; loading reads the same record
      back. */
  lemma SaveThenLoad(c: Record, data: seq<byte>)
    requires c.Marked() && |data| >= ERASE_LEN
    ensures DecodeSpec(Programmed(Erased(data, 0, ERASE_LEN), 0, Layout(c))[..RECORD]) == Ok(c)
  {
    var stored := Programmed(Erased(data, 0, ERASE_LEN), 0, Layout(c));
    ProgramErased(data, Layout(c), ERASE_LEN);
    DecodeLayout(c, []);
    assert stored[..RECORD] == Layout(c) + [];
  }

  /** The erase matters: programming the record over flash that holds zeros
      leaves zeros, which read back as no config at all. */
  lemma ProgramWithoutErase(c: Record)
    requires c.Marked()
    ensures DecodeSpec(Programmed(Zeros(ERASE_LEN), 0, Layout(c))[..RECORD]) == Err(NoConfig)
  {
    var p := Programmed(Zeros(ERASE_LEN), 0, Layout(c));
    assert Layout(c)[0] == MAGIC[0];
    assert p[0] == Program(0, MAGIC[0]);
    assert Program(0, MAGIC[0]) == 0;
    assert p[..RECORD][..|MAGIC|][0] != MAGIC[0];
  }

  /** The `ConfigV1` the firmware keeps in memory and updates in place. */
  /** What `save` returns and leaves in a flash holding `data` whose erase and
      write calls fail as given: an incomplete record is refused and nothing
      is touched; otherwise the first 4096 bytes are erased and the record is
      written at the start. */
  function Saved(c: Record, data: seq<byte>, eraseFails: bool, writeFails: bool): (r: (Result<(), ConfigError>, seq<byte>))
    ensures r.0.Ok? <==> c.Complete() && !eraseFails && !writeFails && |data| >= ERASE_LEN
    ensures r.0.Ok? ==> r.1 == Programmed(Erased(data, 0, ERASE_LEN), 0, Layout(c))
    ensures r.0 == Err(NotComplete) || r.0 == Err(EraseFailed) ==> r.1 == data
  {
    if !c.Complete() then (Err(NotComplete), data)
    else if eraseFails || |data| < ERASE_LEN then (Err(EraseFailed), data)
    else if writeFails then (Err(WriteFailed), Erased(data, 0, ERASE_LEN))
    else (Ok(()), Programmed(Erased(data, 0, ERASE_LEN), 0, Layout(c)))
  }

  class ConfigV1 {
    var preMagic: Slot
    var deviceName: Slot
    var wifiSsid: Slot
    var wifiPass: Slot
    var mqttHost: Slot
    var mqttPort: u16
    var mqttTls: bool
    var verifyCert: bool
    var mqttUser: Slot
    var mqttPass: Slot
    var postMagic: Slot

    function Value(): Record
      reads this
    {
      Record(preMagic, deviceName, wifiSsid, wifiPass, mqttHost, mqttPort, mqttTls, verifyCert, mqttUser, mqttPass, postMagic)
    }

    /** `ConfigV1::default()`. */
    constructor Default()
      ensures Value() == DEFAULT
    {
      preMagic := MAGIC_SLOT;
      deviceName := EMPTY;
      wifiSsid := EMPTY;
      wifiPass := EMPTY;
      mqttHost := EMPTY;
      mqttPort := 1883;
      mqttTls := false;
      verifyCert := true;
      mqttUser := EMPTY;
      mqttPass := EMPTY;
      postMagic := MAGIC_SLOT;
    }

    /** A `ConfigV1` holding the given fields. */
    constructor Of(c: Record)
      ensures Value() == c
    {
      preMagic, deviceName, wifiSsid, wifiPass := c.preMagic, c.deviceName, c.wifiSsid, c.wifiPass;
      mqttHost, mqttPort, mqttTls, verifyCert := c.mqttHost, c.mqttPort, c.mqttTls, c.verifyCert;
      mqttUser, mqttPass, postMagic := c.mqttUser, c.mqttPass, c.postMagic;
    }

    /** `update`. */
    method Update(u: ConfigUpdate)
      modifies this
      ensures Value() == Updated(old(Value()), u)
    {
      deviceName := Pick(deviceName, u.deviceName);
      wifiSsid := Pick(wifiSsid, u.wifiSsid);
      wifiPass := Pick(wifiPass, u.wifiPass);
      mqttHost := Pick(mqttHost, u.mqttHost);
      mqttPort := if u.mqttPort.Some? && u.mqttPort.value != 0 then u.mqttPort.value else mqttPort;
      mqttTls := if u.mqttTls.Some? then u.mqttTls.value else mqttTls;
      mqttUser := Pick(mqttUser, u.mqttUser);
      mqttPass := Pick(mqttPass, u.mqttPass);
      UpdatedIs(Value(), old(Value()), u);
    }

    /** `encode`: the record into the front of `buf`, the rest of `buf` untouched. */
    method Encode(buf: array<byte>) returns (r: Result<(), ConfigError>)
      modifies buf
      ensures buf.Length < RECORD ==> r == Err(EncodeTooSmall) && buf[..] == old(buf[..])
      ensures buf.Length >= RECORD ==> r == Ok(())
      ensures buf.Length >= RECORD ==> buf[..RECORD] == Layout(Value()) && buf[RECORD..] == old(buf[RECORD..])
    {
      if buf.Length < RECORD {
        return Err(EncodeTooSmall);
      }
      ghost var tail := buf[RECORD..];
      Put(buf, 0, preMagic);
      assert buf[..64] == preMagic;
      assert buf[RECORD..] == tail;
      Put(buf, 64, deviceName);
      assert buf[..128] == preMagic + deviceName;
      assert buf[RECORD..] == tail;
      Put(buf, 128, wifiSsid);
      assert buf[..192] == preMagic + deviceName + wifiSsid;
      assert buf[RECORD..] == tail;
      Put(buf, 192, wifiPass);
      assert buf[..256] == preMagic + deviceName + wifiSsid + wifiPass;
      assert buf[RECORD..] == tail;
      Put(buf, 256, mqttHost);
      ghost var text := preMagic + deviceName + wifiSsid + wifiPass + mqttHost;
      assert buf[..320] == text;
      assert buf[RECORD..] == tail;
      Put(buf, 320, BigEndian(mqttPort));
      assert buf[..322] == text + BigEndian(mqttPort);
      assert buf[RECORD..] == tail;
      Put(buf, 322, [Flag(mqttTls)]);
      assert buf[..323] == text + BigEndian(mqttPort) + [Flag(mqttTls)];
      assert buf[RECORD..] == tail;
      Put(buf, 323, [Flag(verifyCert)]);
      ghost var front := text + BigEndian(mqttPort) + [Flag(mqttTls)] + [Flag(verifyCert)];
      assert buf[..324] == front;
      assert buf[RECORD..] == tail;
      Put(buf, 324, mqttUser);
      assert buf[..388] == front + mqttUser;
      assert buf[RECORD..] == tail;
      Put(buf, 388, mqttPass);
      assert buf[..452] == front + mqttUser + mqttPass;
      assert buf[RECORD..] == tail;
      Put(buf, 452, postMagic);
      assert buf[..RECORD] == front + mqttUser + mqttPass + postMagic;
      return Ok(());
    }

    /** `decode`: the fields are copied out of the buffer slot by slot, then
        both magic slots are checked. */
    static method Decode(buf: seq<byte>) returns (r: Result<ConfigV1, ConfigError>)
      ensures r.Err? ==> DecodeSpec(buf) == Err(r.error)
      ensures r.Ok? ==> fresh(r.value) && DecodeSpec(buf) == Ok(r.value.Value())
    {
      if |buf| < RECORD {
        return Err(DecodeTooSmall);
      }
      var c := Fields(buf);
      if c.preMagic[..|MAGIC|] != MAGIC {
        return Err(NoConfig);
      }
      if c.postMagic[..|MAGIC|] != MAGIC {
        return Err(Corrupt);
      }
      var config := new ConfigV1.Of(c);
      return Ok(config);
    }

    /** `load`: read a record's worth from the start of the flash and decode it. */
    static method Load(src: NorFlash) returns (r: Result<ConfigV1, ConfigError>)
      ensures src.readFails || |src.data| < RECORD ==> r == Err(ReadFailed)
      ensures !src.readFails && |src.data| >= RECORD ==>
                && (r.Err? ==> DecodeSpec(src.data[..RECORD]) == Err(r.error))
                && (r.Ok? ==> fresh(r.value) && DecodeSpec(src.data[..RECORD]) == Ok(r.value.Value()))
    {
      var read := src.Read(0, RECORD);
      if read.None? {
        return Err(ReadFailed);
      }
      r := Decode(read.value);
    }

    /** `save`: refuse an incomplete record, else erase the first 4096 bytes and
        write the record there. */
    method Save(dst: NorFlash) returns (r: Result<(), ConfigError>)
      modifies dst
      ensures (r, dst.data) == Saved(Value(), old(dst.data), dst.eraseFails, dst.writeFails)
    {
      if !(deviceName[0] != 0 && wifiSsid[0] != 0 && wifiPass[0] != 0 && mqttHost[0] != 0 && mqttPass[0] != 0 && mqttPort != 0) {
        return Err(NotComplete);
      }
      var writeBuf := new byte[RECORD](_ => 0);
      var _ := Encode(writeBuf);
      var erased := dst.Erase(0, ERASE_LEN);
      if !erased {
        return Err(EraseFailed);
      }
      assert writeBuf[..] == writeBuf[..RECORD] == Layout(Value());
      var written := dst.Write(0, writeBuf[..]);
      if !written {
        return Err(WriteFailed);
      }
      return Ok(());
    }
  }

  /** The update test: "mydoor" as the device name of a default record reads
      back as "mydoor". */
  lemma UpdateExample(ssid: Slot, pass: Slot)
    ensures var name := TryFrom(Str("mydoor"));
            && name.Ok?
            && AsStr(Updated(DEFAULT, ConfigUpdate(Some(name.value), Some(ssid), Some(pass), None, None, None, None, None)).deviceName) == Str("mydoor")
  {
    var s := Str("mydoor");
    assert IsAscii(s) && s[0] != 0;
    AsciiIsUtf8(s);
    AsStrTryFrom(s);
    var name := TryFrom(s).value;
    assert name[0] == s[0];
    assert Pick(EMPTY, Some(name)) == name;
  }

  /** The byte-layout test: port 1024 is stored as 04 00, TLS on as 01, certificate
      checks off as 00, and the record decodes to the same fields. */
  lemma LayoutExample(name: Slot)
    ensures var c := DEFAULT.(deviceName := name, mqttPort := 1024, mqttTls := true, verifyCert := false);
            && Layout(c)[PORT_AT..PORT_AT + 2] == [4, 0]
            && Layout(c)[TLS_AT] == 1 && Layout(c)[VERIFY_AT] == 0
            && DecodeSpec(Layout(c)) == Ok(c)
  {
    var c := DEFAULT.(deviceName := name, mqttPort := 1024, mqttTls := true, verifyCert := false);
    DefaultMarkedIncomplete();
    DecodeLayout(c, []);
    assert Layout(c) + [] == Layout(c);
    assert Layout(c)[320..322] == BigEndian(1024);
  }
}
