/** What the three versions of the persisted configuration share: the 64-byte
    value slot `ConfigV1Value`, the magic that brackets a stored record, the
    error messages, and the flash the record is kept in. */
module ConfigValue {
  import opened Common

  const SLOT: nat := 64

  /** `ConfigV1Value([u8; 64])`: text, NUL-padded to 64 bytes. */
  type Slot = s: seq<byte> | |s| == SLOT witness Zeros(SLOT)

  /** `CONFIGV1_MAGIC`, "doorcontrolv1". */
  const MAGIC: seq<byte> := [0x64, 0x6F, 0x6F, 0x72, 0x63, 0x6F, 0x6E, 0x74, 0x72, 0x6F, 0x6C, 0x76, 0x31]

  /** The size of the region `save` erases before it writes. */
  const ERASE_LEN: nat := 4096

  /** The errors of the configuration code; `Message` gives each one's text. */
  datatype ConfigError =
    | TooLong
    | ValueTooLong
    | ReadFailed
    | NotComplete
    | EraseFailed
    | WriteFailed
    | EncodeTooSmall
    | DecodeTooSmall
    | NoConfig
    | Corrupt

  function Message(e: ConfigError): (r: string)
    ensures r != []
  {
    match e
    case TooLong => "input string too long (>64 bytes)"
    case ValueTooLong => "value more than 64 bytes"
    case ReadFailed => "error reading config from storage"
    case NotComplete => "config not complete"
    case EraseFailed => "error erasing flash prior to write"
    case WriteFailed => "error writing to storage"
    case EncodeTooSmall => "buffer to small to store config"
    case DecodeTooSmall => "buffer to small to contain config"
    case NoConfig => "no config exists or config corrupt"
    case Corrupt => "config corrupt"
  }

  /** The empty slot, `ConfigV1Value::default()`. */
  const EMPTY: Slot := Zeros(SLOT)

  /** The slot that holds the magic, as `ConfigV1::default()` builds it. */
  const MAGIC_SLOT: Slot := MAGIC + Zeros(SLOT - |MAGIC|)

  /** A slot whose first 13 bytes are the magic. */
  predicate Marked(s: Slot) {
    s[..|MAGIC|] == MAGIC
  }

  lemma MagicSlotMarked()
    ensures Marked(MAGIC_SLOT) && MAGIC_SLOT[0] != 0
  {
    assert MAGIC_SLOT[..|MAGIC|] == MAGIC;
  }

  /** The position of the first NUL at or after `i`, or `|s|` when there is none. */
  function NulFrom(s: seq<byte>, i: nat): (r: nat)
    requires i <= |s|
    ensures i <= r <= |s|
    ensures forall k :: i <= k < r ==> s[k] != 0
    ensures r < |s| ==> s[r] == 0
    decreases |s| - i
  {
    if i == |s| || s[i] == 0 then i else NulFrom(s, i + 1)
  }

  /** `ConfigV1Value::as_str`: the text before the first NUL, or the empty string
      when that text is not UTF-8. */
  function AsStr(v: Slot): (r: seq<byte>)
    ensures r <= v && ValidUtf8(r)
    ensures forall k :: 0 <= k < |r| ==> r[k] != 0
    ensures r != [] && |r| < SLOT ==> v[|r|] == 0
    ensures r == [] && v[0] != 0 ==> !ValidUtf8(v[..NulFrom(v, 0)])
  {
    var n := NulFrom(v, 0);
    if n == 0 then []
    else if ValidUtf8(v[..n]) then v[..n]
    else []
  }

  /** `ConfigV1Value::try_from(&str)`: at most 64 bytes, NUL-padded. The same
      rule is the value visitor's of the serde deserializer. */
  function TryFrom(s: seq<byte>): (r: Result<Slot, ConfigError>)
    ensures r.Ok? <==> |s| <= SLOT
    ensures r.Err? ==> r.error == TooLong
    ensures r.Ok? ==> r.value[..|s|] == s && r.value[|s|..] == Zeros(SLOT - |s|)
  {
    if |s| > SLOT then Err(TooLong) else Ok(s + Zeros(SLOT - |s|))
  }

  /** Text without NUL that is UTF-8 and fits comes back out of its slot. */
  lemma AsStrTryFrom(s: seq<byte>)
    requires |s| <= SLOT && ValidUtf8(s)
    requires forall k :: 0 <= k < |s| ==> s[k] != 0
    ensures TryFrom(s).Ok? && AsStr(TryFrom(s).value) == s
  {
    var v := TryFrom(s).value;
    assert v[..|s|] == s;
    if |s| < SLOT {
      assert v[|s|] == Zeros(SLOT - |s|)[0];
    }
    assert NulFrom(v, 0) == |s|;
  }

  /** Text with a NUL comes back cut at the NUL. */
  lemma AsStrCutsAtNul(s: seq<byte>, i: nat)
    requires |s| <= SLOT && i < |s| && s[i] == 0 && ValidUtf8(s[..i])
    requires forall k :: 0 <= k < i ==> s[k] != 0
    ensures AsStr(TryFrom(s).value) == s[..i]
  {
    var v := TryFrom(s).value;
    assert v[..|s|] == s;
    assert v[i] == 0;
    assert NulFrom(v, 0) == i by {
      assert forall k :: 0 <= k < i ==> v[k] == s[k];
    }
    assert v[..i] == s[..i];
  }

  /** Picks the new value of a text field: a supplied value replaces the old one
      unless its first byte is NUL. */
  function Pick(cur: Slot, upd: Option<Slot>): Slot {
    match upd
    case Some(v) => if v[0] != 0 then v else cur
    case None => cur
  }

  /** A supplied value with a first byte other than NUL is taken; the field
      changes only to such a value. */
  lemma PickTakes(cur: Slot, upd: Option<Slot>)
    ensures upd.Some? && upd.value[0] != 0 ==> Pick(cur, upd) == upd.value
    ensures Pick(cur, upd) != cur ==> upd == Some(Pick(cur, upd)) && Pick(cur, upd)[0] != 0
  {
  }

  /** A field picked from a filled one stays filled. */
  lemma PickKeepsFilled(cur: Slot, upd: Option<Slot>)
    requires cur[0] != 0
    ensures Pick(cur, upd)[0] != 0
  {
  }

  // ---------------------------------------------------------------------------
  // The storage the record lives in.

  /** `2^k - 1`: the value with the lowest `k` bits set. */
  function Ones(k: nat): nat {
    if k == 0 then 0 else 2 * Ones(k - 1) + 1
  }

  /** The bitwise AND of the lowest `k` bits of `a` and `b`. */
  function AndBits(a: nat, b: nat, k: nat): (r: nat)
    ensures r <= Ones(k)
  {
    if k == 0 then 0
    else (if a % 2 == 1 && b % 2 == 1 then 1 else 0) + 2 * AndBits(a / 2, b / 2, k - 1)
  }

  /** AND with all ones keeps the other operand, from either side. */
  lemma {:induction false} AndOnes(b: nat, k: nat)
    requires b <= Ones(k)
    ensures AndBits(Ones(k), b, k) == b && AndBits(b, Ones(k), k) == b
  {
    if k > 0 {
      assert Ones(k) / 2 == Ones(k - 1) && Ones(k) % 2 == 1;
      AndOnes(b / 2, k - 1);
    }
  }

  /** One byte of a NOR-flash program operation: bits can only go from 1 to 0. */
  function Program(old_: byte, new_: byte): (r: byte)
    ensures old_ == 0xFF ==> r == new_
    ensures new_ == 0xFF ==> r == old_
  {
    assert Ones(8) == 0xFF;
    AndOnes(new_, 8);
    AndOnes(old_, 8);
    AndBits(old_, new_, 8)
  }

  /** The flash after erasing `[from, to)` to all ones. */
  function Erased(data: seq<byte>, from: nat, to: nat): (r: seq<byte>)
    requires from <= to <= |data|
    ensures |r| == |data| && r[..from] == data[..from] && r[to..] == data[to..]
    ensures forall k :: from <= k < to ==> r[k] == 0xFF
  {
    data[..from] + seq(to - from, _ => 0xFF) + data[to..]
  }

  /** The flash after programming `bytes` at `offset`. */
  function Programmed(data: seq<byte>, offset: nat, bytes: seq<byte>): (r: seq<byte>)
    requires offset + |bytes| <= |data|
    ensures |r| == |data| && r[..offset] == data[..offset]
    ensures r[offset + |bytes|..] == data[offset + |bytes|..]
    ensures forall k :: 0 <= k < |bytes| ==> r[offset + k] == Program(data[offset + k], bytes[k])
  {
    data[..offset]
      + seq(|bytes|, k requires 0 <= k < |bytes| => Program(data[offset + k], bytes[k]))
      + data[offset + |bytes|..]
  }

  /** Programming erased flash stores exactly the bytes written. */
  lemma ProgramErased(data: seq<byte>, bytes: seq<byte>, to: nat)
    requires |bytes| <= to <= |data|
    ensures Programmed(Erased(data, 0, to), 0, bytes)[..|bytes|] == bytes
  {
    var e := Erased(data, 0, to);
    var p := Programmed(e, 0, bytes);
    forall k | 0 <= k < |bytes|
      ensures p[k] == bytes[k]
    {
      assert p[0 + k] == Program(e[0 + k], bytes[k]);
    }
  }

  /** A NOR flash (`embedded_storage::nor_flash::NorFlash`): `erase` sets a
      range to all ones, `write` can only clear bits. Whether each kind of call
      fails is fixed when the device is made; a call outside the device also
      fails. */
  class NorFlash {
    var data: seq<byte>
    const readFails: bool
    const eraseFails: bool
    const writeFails: bool

    constructor(data: seq<byte>, readFails: bool, eraseFails: bool, writeFails: bool)
      ensures this.data == data && this.readFails == readFails
      ensures this.eraseFails == eraseFails && this.writeFails == writeFails
    {
      this.data := data;
      this.readFails := readFails;
      this.eraseFails := eraseFails;
      this.writeFails := writeFails;
    }

    method Read(offset: nat, len: nat) returns (r: Option<seq<byte>>)
      ensures r.Some? <==> !readFails && offset + len <= |data|
      ensures r.Some? ==> r.value == data[offset..offset + len]
    {
      if readFails || offset + len > |data| {
        return None;
      }
      return Some(data[offset..offset + len]);
    }

    method Erase(from: nat, to: nat) returns (ok: bool)
      modifies this
      ensures ok <==> !eraseFails && from <= to <= |old(data)|
      ensures ok ==> data == Erased(old(data), from, to)
      ensures !ok ==> data == old(data)
    {
      if eraseFails || !(from <= to <= |data|) {
        return false;
      }
      data := Erased(data, from, to);
      return true;
    }

    method Write(offset: nat, bytes: seq<byte>) returns (ok: bool)
      modifies this
      ensures ok <==> !writeFails && offset + |bytes| <= |old(data)|
      ensures ok ==> data == Programmed(old(data), offset, bytes)
      ensures !ok ==> data == old(data)
    {
      if writeFails || offset + |bytes| > |data| {
        return false;
      }
      data := Programmed(data, offset, bytes);
      return true;
    }
  }

  /** The flash after `bytes` replace what was stored at `offset`. */
  function Overwritten(data: seq<byte>, offset: nat, bytes: seq<byte>): (r: seq<byte>)
    requires offset + |bytes| <= |data|
    ensures |r| == |data| && r[offset..offset + |bytes|] == bytes
    ensures r[..offset] == data[..offset] && r[offset + |bytes|..] == data[offset + |bytes|..]
  {
    data[..offset] + bytes + data[offset + |bytes|..]
  }

  /** A storage device (`embedded_storage::Storage`): `write` replaces the bytes
      it covers, with no erase needed. */
  class Storage {
    var data: seq<byte>
    const readFails: bool
    const writeFails: bool

    constructor(data: seq<byte>, readFails: bool, writeFails: bool)
      ensures this.data == data && this.readFails == readFails && this.writeFails == writeFails
    {
      this.data := data;
      this.readFails := readFails;
      this.writeFails := writeFails;
    }

    method Read(offset: nat, len: nat) returns (r: Option<seq<byte>>)
      ensures r.Some? <==> !readFails && offset + len <= |data|
      ensures r.Some? ==> r.value == data[offset..offset + len]
    {
      if readFails || offset + len > |data| {
        return None;
      }
      return Some(data[offset..offset + len]);
    }

    method Write(offset: nat, bytes: seq<byte>) returns (ok: bool)
      modifies this
      ensures ok <==> !writeFails && offset + |bytes| <= |old(data)|
      ensures ok ==> data == Overwritten(old(data), offset, bytes)
      ensures !ok ==> data == old(data)
    {
      if writeFails || offset + |bytes| > |data| {
        return false;
      }
      data := Overwritten(data, offset, bytes);
      return true;
    }
  }

  /** `copy_from_slice` into `buf[offset..offset + |bytes|]`. */
  method Put(buf: array<byte>, offset: nat, bytes: seq<byte>)
    requires offset + |bytes| <= buf.Length
    modifies buf
    ensures buf[..offset + |bytes|] == old(buf[..offset]) + bytes
    ensures buf[offset + |bytes|..] == old(buf[offset + |bytes|..])
  {
    for i := 0 to |bytes|
      invariant forall k :: 0 <= k < offset ==> buf[k] == old(buf[k])
      invariant forall k :: 0 <= k < i ==> buf[offset + k] == bytes[k]
      invariant forall k :: offset + i <= k < buf.Length ==> buf[k] == old(buf[k])
    {
      buf[offset + i] := bytes[i];
    }
    assert buf[..offset + |bytes|] == old(buf[..offset]) + bytes by {
      forall k | 0 <= k < offset + |bytes|
        ensures buf[k] == (old(buf[..offset]) + bytes)[k]
      {
        if k >= offset {
          assert buf[offset + (k - offset)] == bytes[k - offset];
        }
      }
    }
  }
}
