/** WebSocket frames as the doorctrl server reads and writes them
    (doorctrl/src/http/websocket.rs): the frame header of section 5.2 of
    RFC 6455, the masking of section 5.3, and the `Websocket` wrapper that
    receives and sends frames over a client connection.

    `usize` is 32 bits wide on the target, so a payload length must stay
    below 2^32. */
module WebSocket {
  import opened Common
  import opened Io

  const USIZE: nat := 0x1_0000_0000
  const U16_MAX: nat := 0xFFFF

  // ---------------------------------------------------------------------------
  // Bytes

  function Pow2(k: nat): (r: nat)
    ensures r >= 1
  {
    if k == 0 then 1 else 2 * Pow2(k - 1)
  }

  /** Exclusive or of the low `k` bits, least significant bit first. */
  function XorLow(a: nat, b: nat, k: nat): (r: nat)
    ensures r < Pow2(k)
  {
    if k == 0 then 0 else (if a % 2 == b % 2 then 0 else 1) + 2 * XorLow(a / 2, b / 2, k - 1)
  }

  /** The `^` of two `u8`. */
  function Xor(a: byte, b: byte): byte {
    assert Pow2(8) == 256;
    XorLow(a, b, 8)
  }

  lemma {:induction false} XorLowCancel(a: nat, b: nat, k: nat)
    requires a < Pow2(k)
    ensures XorLow(XorLow(a, b, k), b, k) == a
  {
    if k > 0 {
      var c := XorLow(a, b, k);
      assert c % 2 == (if a % 2 == b % 2 then 0 else 1) && c / 2 == XorLow(a / 2, b / 2, k - 1);
      XorLowCancel(a / 2, b / 2, k - 1);
    }
  }

  lemma {:induction false} XorLowZero(b: nat, k: nat)
    requires b < Pow2(k)
    ensures XorLow(0, b, k) == b
  {
    if k > 0 {
      XorLowZero(b / 2, k - 1);
    }
  }

  lemma {:induction false} XorLowTop(lo: nat, k: nat)
    requires lo < Pow2(k)
    ensures XorLow(Pow2(k), lo, k + 1) == Pow2(k) + lo
  {
    if k > 0 {
      var p := Pow2(k);
      assert p % 2 == 0 && p / 2 == Pow2(k - 1);
      assert XorLow(p, lo, k + 1) == lo % 2 + 2 * XorLow(p / 2, lo / 2, k);
      XorLowTop(lo / 2, k - 1);
    }
  }

  /** XOR with the same byte twice is the identity. */
  lemma XorCancel(a: byte, b: byte)
    ensures Xor(Xor(a, b), b) == a
  {
    assert Pow2(8) == 256;
    XorLowCancel(a, b, 8);
  }

  /** XOR into a zero byte stores the byte. */
  lemma XorZero(b: byte)
    ensures Xor(0, b) == b
  {
    assert Pow2(8) == 256;
    XorLowZero(b, 8);
  }

  /** Setting the top bit over a 7-bit value adds 128. */
  lemma XorHigh(lo: byte)
    requires lo < 128
    ensures Xor(128, lo) == 128 + lo
  {
    assert Pow2(7) == 128;
    XorLowTop(lo, 7);
  }

  /** `n.to_be_bytes()` for a `k`-byte integer. */
  function BigEndian(n: nat, k: nat): (r: seq<byte>)
    ensures |r| == k
  {
    if k == 0 then [] else BigEndian(n / 256, k - 1) + [n % 256]
  }

  /** The `(b0 as u64) << 8 | b1 as u64 ...` reading of a byte string. */
  function FromBigEndian(s: seq<byte>): nat {
    if s == [] then 0 else FromBigEndian(s[..|s| - 1]) * 256 + s[|s| - 1]
  }

  function Pow256(k: nat): (r: nat)
    ensures r >= 1
  {
    if k == 0 then 1 else 256 * Pow256(k - 1)
  }

  lemma {:induction false} BigEndianRoundTrip(n: nat, k: nat)
    requires n < Pow256(k)
    ensures FromBigEndian(BigEndian(n, k)) == n
  {
    if k > 0 {
      var s := BigEndian(n, k);
      assert s[..k - 1] == BigEndian(n / 256, k - 1);
      BigEndianRoundTrip(n / 256, k - 1);
    }
  }

  /** A k-byte reading is below 256^k. */
  lemma {:induction false} FromBigEndianBound(s: seq<byte>)
    ensures FromBigEndian(s) < Pow256(|s|)
  {
    if s != [] {
      FromBigEndianBound(s[..|s| - 1]);
    }
  }

  /** A leading non-zero byte puts an 8-byte reading at or above 2^56. */
  lemma {:induction false} FromBigEndianLow(s: seq<byte>, k: nat)
    requires |s| == k + 1 && s[0] > 0
    ensures FromBigEndian(s) >= Pow256(k)
  {
    if k > 0 {
      FromBigEndianLow(s[..|s| - 1], k - 1);
    }
  }

  /** The second byte of a (k+2)-byte reading weighs 256^k. */
  lemma {:induction false} FromBigEndianSecond(s: seq<byte>, k: nat)
    requires |s| == k + 2
    ensures FromBigEndian(s) >= s[1] * Pow256(k)
  {
    if k > 0 {
      var s' := s[..|s| - 1];
      FromBigEndianSecond(s', k - 1);
      assert FromBigEndian(s) >= FromBigEndian(s') * 256;
      assert s'[1] * Pow256(k - 1) * 256 == s[1] * Pow256(k);
    } else {
      assert FromBigEndian(s) == FromBigEndian(s[..1]) * 256 + s[1];
    }
  }

  // ---------------------------------------------------------------------------
  // Frame headers

  datatype WebsocketError =
    | InsufficientData(missing: nat)
    | Unsupported(msg: string)
    | NetworkError

  /** `WebsocketFrame`: `mask` is the four-byte masking key, when present. */
  datatype Frame = Frame(opcode: byte, len: nat, fin: bool, masked: bool, mask: Option<seq<byte>>)

  const FRAGMENTED := "payload fragmentation not supported"
  const TOO_LONG := "payload length exceeds max platform architecture usize"

  /** What every decoded header satisfies: a final frame with a non-zero
      4-bit opcode, a length that fits `usize`, and a four-byte key exactly
      when the mask bit is set. */
  predicate Wellformed(f: Frame) {
    f.fin && 0 < f.opcode < 16 && f.len < USIZE && f.masked == f.mask.Some?
    && (f.mask.Some? ==> |f.mask.value| == 4)
  }

  /** The bytes two to `maskOffset` carried the length `len`; what remains
      is the `usize` conversion and the masking key. */
  function Finish(value: seq<byte>, len: nat, required: nat, maskOffset: nat): (r: Result<Frame, WebsocketError>)
    requires 2 <= maskOffset <= required <= |value|
    ensures r.Ok? ==> Wellformed(r.value) || !(value[0] >= 128 && value[0] % 16 != 0)
  {
    if len >= USIZE then Err(Unsupported(TOO_LONG))
    else
      var masked := value[1] >= 128;
      if masked && |value| < required + 4 then Err(InsufficientData(required + 4 - |value|))
      else Ok(Frame(value[0] % 16, len, value[0] >= 128, masked,
                    if masked then Some(value[maskOffset..maskOffset + 4]) else None))
  }

  /** `WebsocketFrame::decode` as written: after a 16-bit length has been
      read, the 64-bit branch is taken again when that length is 127. */
  function Decode(value: seq<byte>): (r: Result<Frame, WebsocketError>)
    ensures |value| < 2 ==> r == Err(InsufficientData(2 - |value|))
    ensures r.Ok? ==> Wellformed(r.value)
    ensures r.Err? && r.error.InsufficientData? ==> r.error.missing > 0 && |value| + r.error.missing <= 14
  {
    if |value| < 2 then Err(InsufficientData(2 - |value|))
    else if value[0] < 128 || value[0] % 16 == 0 then Err(Unsupported(FRAGMENTED))
    else
      var len7 := value[1] % 128;
      if len7 == 126 && |value| < 4 then Err(InsufficientData(4 - |value|))
      else
        var len := if len7 == 126 then FromBigEndian(value[2..4]) else len7;
        var required := if len7 == 126 then 4 else 2;
        if len == 127 && |value| < required + 8 then Err(InsufficientData(required + 8 - |value|))
        else if len == 127 then
          Reread127(value);
          Finish(value, FromBigEndian(value[2..10]), required + 8, 10)
        else Finish(value, len, required, required)
  }

  /** After a 16-bit length of 127 the decoder as written reads bytes two
      to ten as a 64-bit length; that length starts with the bytes 0 and
      127 and is far beyond `usize`. */
  lemma Reread127(value: seq<byte>)
    requires |value| >= 10
    ensures FromBigEndian(value[2..4]) == 127 ==> FromBigEndian(value[2..10]) >= USIZE
  {
    var s := value[2..10];
    assert value[2..4] == s[..2];
    assert FromBigEndian(s[..2]) == FromBigEndian(s[..1]) * 256 + s[1];
    assert s[..1][..0] == [];
    assert FromBigEndian(s[..1]) == s[0];
    if FromBigEndian(s[..2]) != 127 {
      return;
    }
    assert s[1] == 127;
    FromBigEndianSecond(s, 6);
    assert Pow256(6) >= USIZE;
  }

  /** The decoder with the three length forms as alternatives: a 16-bit
      length is final. */
  function DecodeFixed(value: seq<byte>): (r: Result<Frame, WebsocketError>)
    ensures |value| < 2 ==> r == Err(InsufficientData(2 - |value|))
    ensures r.Ok? ==> Wellformed(r.value)
    ensures r.Err? && r.error.InsufficientData? ==> r.error.missing > 0 && |value| + r.error.missing <= 14
  {
    if |value| < 2 then Err(InsufficientData(2 - |value|))
    else if value[0] < 128 || value[0] % 16 == 0 then Err(Unsupported(FRAGMENTED))
    else
      var len7 := value[1] % 128;
      if len7 == 126 then
        if |value| < 4 then Err(InsufficientData(4 - |value|))
        else Finish(value, FromBigEndian(value[2..4]), 4, 4)
      else if len7 == 127 then
        if |value| < 10 then Err(InsufficientData(10 - |value|))
        else Finish(value, FromBigEndian(value[2..10]), 10, 10)
      else Finish(value, len7, 2, 2)
  }

  function FinBit(f: Frame): byte {
    if f.fin then 128 else 0
  }

  function MaskBit(f: Frame): byte {
    if f.masked then 128 else 0
  }

  /** The 7-bit length field: the length itself, or 126 / 127 to announce a
      16-bit / 64-bit length. */
  function LenCode(len: nat): byte {
    if len <= 125 then len else if len <= U16_MAX then 126 else 127
  }

  /** The extended length, big-endian. */
  function LenBytes(len: nat): seq<byte> {
    if len <= 125 then [] else if len <= U16_MAX then BigEndian(len, 2) else BigEndian(len, 8)
  }

  /** Where the masking key starts: 2, 4 or 10. */
  function MaskOffset(len: nat): nat {
    2 + |LenBytes(len)|
  }

  function Key(f: Frame): seq<byte> {
    if f.mask.Some? then f.mask.value else []
  }

  /** The header of section 5.2 of RFC 6455 for a frame: the fin bit over
      the 4-bit opcode, the mask bit over the length code, the extended
      length and the masking key. */
  function Header(f: Frame): (h: seq<byte>)
    ensures |h| == MaskOffset(f.len) + |Key(f)|
  {
    [FinBit(f) + f.opcode % 16, MaskBit(f) + LenCode(f.len)] + LenBytes(f.len) + Key(f)
  }

  /** A flag in the top bit over a 7-bit value: the two read back apart. */
  lemma XorFlag(flag: bool, lo: byte)
    requires lo < 128
    ensures Xor(if flag then 128 else 0, lo) == (if flag then 128 else 0) + lo
  {
    if flag {
      XorHigh(lo);
    } else {
      XorZero(lo);
    }
  }

  /** The first two header bytes carry the fin bit, the opcode, the mask
      bit and the 7-bit length code. */
  lemma HeaderFlags(f: Frame)
    requires Wellformed(f)
    ensures Header(f)[0] >= 128 && Header(f)[0] % 16 == f.opcode
    ensures Header(f)[1] % 128 == LenCode(f.len)
    ensures Header(f)[1] >= 128 <==> f.masked
  {
    var h := Header(f);
    assert h[0] == 128 + f.opcode;
    assert h[1] == MaskBit(f) + LenCode(f.len);
  }

  /** The extended length reads back as the length. */
  lemma LenBytesRoundTrip(len: nat)
    requires 125 < len < USIZE
    ensures FromBigEndian(LenBytes(len)) == len
  {
    if len <= U16_MAX {
      assert Pow256(2) == 65536;
      BigEndianRoundTrip(len, 2);
    } else {
      assert Pow256(8) > USIZE;
      BigEndianRoundTrip(len, 8);
    }
  }

  /** Decoding an encoded header gives back the frame, whatever follows it. */
  lemma DecodeFixedRoundTrip(f: Frame, rest: seq<byte>)
    requires Wellformed(f)
    ensures DecodeFixed(Header(f) + rest) == Ok(f)
  {
    var h := Header(f);
    var v := h + rest;
    HeaderFlags(f);
    assert v[0] == h[0] && v[1] == h[1];
    var m := MaskOffset(f.len);
    assert v[2..m] == LenBytes(f.len);
    if f.len > 125 {
      LenBytesRoundTrip(f.len);
    }
    if f.masked {
      assert v[m..m + 4] == f.mask.value;
    }
  }

  /** A proper prefix of at least two bytes of an encoded header asks for
      more bytes, never more than the header still has. */
  lemma DecodeFixedPrefix(f: Frame, have: seq<byte>)
    requires Wellformed(f) && 2 <= |have| < |Header(f)| && have == Header(f)[..|have|]
    ensures DecodeFixed(have).Err? && DecodeFixed(have).error.InsufficientData?
    ensures |have| + DecodeFixed(have).error.missing <= |Header(f)|
  {
    var h := Header(f);
    HeaderFlags(f);
    assert have[0] == h[0] && have[1] == h[1];
    var m := MaskOffset(f.len);
    if |have| >= m {
      assert h[2..m] == LenBytes(f.len);
      assert have[2..m] == h[2..m];
      if f.len > 125 {
        LenBytesRoundTrip(f.len);
      }
    }
  }

  /** As written, a frame whose payload is 127 bytes long is not decoded
      from its own header: the 16-bit length 127 re-enters the 64-bit
      branch. */
  lemma DecodeMissesLength127()
    ensures Header(Frame(2, 127, true, false, None)) == [0x82, 126, 0, 127]
    ensures DecodeFixed([0x82, 126, 0, 127]) == Ok(Frame(2, 127, true, false, None))
    ensures Decode([0x82, 126, 0, 127]) == Err(InsufficientData(8))
  {
    var f := Frame(2, 127, true, false, None);
    assert BigEndian(127, 2) == [0, 127];
    assert Header(f) == [0x82, 126] + [0, 127];
    var v: seq<byte> := [0x82, 126, 0, 127];
    assert v[2..4] == [0, 127];
    assert FromBigEndian([0, 127]) == 127 by {
      assert [0, 127][..1] == [0];
      assert FromBigEndian([0]) == 0 by { assert [0 as byte][..0] == []; }
    }
  }

  /** Away from that one length the decoder as written agrees with the
      fixed one. */
  lemma DecodeAgrees(value: seq<byte>)
    requires !(|value| >= 4 && value[1] % 128 == 126 && FromBigEndian(value[2..4]) == 127)
    ensures Decode(value) == DecodeFixed(value)
  {
  }

  /** So the round trip of the decoder as written holds for every other
      length. */
  lemma DecodeRoundTrip(f: Frame, rest: seq<byte>)
    requires Wellformed(f) && f.len != 127
    ensures Decode(Header(f) + rest) == Ok(f)
  {
    DecodeFixedRoundTrip(f, rest);
    var v := Header(f) + rest;
    if |v| >= 4 && v[1] % 128 == 126 {
      HeaderFlags(f);
      assert v[1] == Header(f)[1];
      assert v[2..4] == LenBytes(f.len);
      LenBytesRoundTrip(f.len);
    }
    DecodeAgrees(v);
  }

  // ---------------------------------------------------------------------------
  // Encoding in place

  const NEED6 := "encode buffer requires at least 6 bytes"
  const NEED8 := "encode buffer requires at least 8 bytes for given payload lenght"
  const NEED14 := "encode buffer requires at least 14 bytes for given payload lenght"

  /** `encode` fails before writing anything when the buffer holds fewer
      than two bytes, and after writing the first two bytes when it cannot
      hold the extended length. */
  function EncodeError(f: Frame, size: nat): (r: Option<string>)
    ensures r.None? <==> MaskOffset(f.len) <= size
  {
    if size < 2 then Some(NEED6)
    else if 125 < f.len <= U16_MAX && size < 4 then Some(NEED8)
    else if f.len > U16_MAX && size < 10 then Some(NEED14)
    else None
  }

  /** The buffer after the flags step: the fin bit and opcode XORed into
      the first byte, the mask bit into the second. */
  function Flagged(d: seq<byte>, f: Frame): (r: seq<byte>)
    requires |d| >= 2
    ensures |r| == |d| && r[2..] == d[2..]
  {
    d[0 := Xor(Xor(d[0], FinBit(f)), f.opcode % 16)][1 := Xor(d[1], MaskBit(f))]
  }

  /** The buffer after the length step: the length code XORed into the
      second byte, the extended length assigned after it. */
  function Sized(d: seq<byte>, len: nat): (r: seq<byte>)
    requires MaskOffset(len) <= |d|
    ensures |r| == |d| && r[0] == d[0] && r[MaskOffset(len)..] == d[MaskOffset(len)..]
  {
    [d[0], Xor(d[1], LenCode(len))] + LenBytes(len) + d[MaskOffset(len)..]
  }

  /** The buffer after the key step: `key` XORed in at `offset`. */
  function Keyed(d: seq<byte>, key: seq<byte>, offset: nat): (r: seq<byte>)
    requires offset + |key| <= |d|
    ensures |r| == |d| && r[..offset] == d[..offset]
  {
    d[..offset] + seq(|key|, i requires 0 <= i < |key| => Xor(d[offset + i], key[i])) + d[offset + |key|..]
  }

  /** The three steps of `encode` together leave `Encoded`. */
  lemma EncodedBySteps(before: seq<byte>, f: Frame)
    requires MaskOffset(f.len) + |Key(f)| <= |before|
    ensures Keyed(Sized(Flagged(before, f), f.len), Key(f), MaskOffset(f.len)) == Encoded(before, f)
  {
    var m := MaskOffset(f.len);
    var flagged := Flagged(before, f);
    var sized := Sized(flagged, f.len);
    var keyed := Keyed(sized, Key(f), m);
    var e := Encoded(before, f);
    forall k | 0 <= k < |before|
      ensures keyed[k] == e[k]
    {
      if k < m {
        assert keyed[k] == keyed[..m][k] == sized[k];
        if k >= 2 {
          assert sized[k] == LenBytes(f.len)[k - 2];
        }
      } else {
        assert sized[k] == sized[m..][k - m] == flagged[m..][k - m] == flagged[2..][k - 2] == before[k];
      }
    }
  }

  /** XOR the first two header bytes into `dest`. */
  method EncodeFlags(f: Frame, dest: array<byte>)
    requires dest.Length >= 2
    modifies dest
    ensures dest[..] == Flagged(old(dest[..]), f)
  {
    if f.fin {
      dest[0] := Xor(dest[0], 128);
    } else {
      XorZeroRight(dest[0]);
    }
    dest[0] := Xor(dest[0], f.opcode % 16);
    if f.masked {
      dest[1] := Xor(dest[1], 128);
    } else {
      XorZeroRight(dest[1]);
    }
  }

  /** XOR with zero changes nothing. */
  lemma XorZeroRight(a: byte)
    ensures Xor(a, 0) == a
  {
    assert Pow2(8) == 256;
    XorLowZeroRight(a, 8);
  }

  lemma {:induction false} XorLowZeroRight(a: nat, k: nat)
    requires a < Pow2(k)
    ensures XorLow(a, 0, k) == a
  {
    if k > 0 {
      XorLowZeroRight(a / 2, k - 1);
    }
  }

  /** The buffer `encode` leaves behind: the flags and the length code
      XORed into the first two bytes, the extended length assigned, the
      masking key XORed after it, and everything else as it was. */
  function Encoded(before: seq<byte>, f: Frame): (r: seq<byte>)
    requires MaskOffset(f.len) + |Key(f)| <= |before|
    ensures |r| == |before|
  {
    var m := MaskOffset(f.len);
    seq(|before|, k requires 0 <= k < |before| =>
      if k == 0 then Xor(Xor(before[0], FinBit(f)), f.opcode % 16)
      else if k == 1 then Xor(Xor(before[1], MaskBit(f)), LenCode(f.len))
      else if k < m then LenBytes(f.len)[k - 2]
      else if k < m + |Key(f)| then Xor(before[k], Key(f)[k - m])
      else before[k])
  }

  /** Encoding into a zeroed buffer writes exactly the header. */
  lemma EncodedZeroed(f: Frame, n: nat)
    requires MaskOffset(f.len) + |Key(f)| <= n
    ensures Encoded(Zeros(n), f)[..|Header(f)|] == Header(f)
    ensures forall k :: |Header(f)| <= k < n ==> Encoded(Zeros(n), f)[k] == 0
  {
    var e := Encoded(Zeros(n), f);
    var h := Header(f);
    XorZero(FinBit(f));
    XorFlag(f.fin, f.opcode % 16);
    XorZero(MaskBit(f));
    XorFlag(f.masked, LenCode(f.len));
    assert e[0] == h[0] && e[1] == h[1];
    var m := MaskOffset(f.len);
    forall k | m <= k < m + |Key(f)|
      ensures e[k] == h[k]
    {
      XorZero(Key(f)[k - m]);
    }
    assert forall k :: 2 <= k < m ==> e[k] == h[k];
  }

  /** The length part of `encode`: the length code is XORed into the
      second byte and the extended length assigned after it; `None` when
      the buffer is too short for it, with nothing changed. */
  method EncodeLength(len: nat, dest: array<byte>) returns (err: Option<string>)
    requires dest.Length >= 2
    modifies dest
    ensures err == EncodeError(Frame(0, len, false, false, None), dest.Length)
    ensures err.None? ==> dest[..] == Sized(old(dest[..]), len)
    ensures err.Some? ==> dest[..] == old(dest[..])
  {
    if len <= 125 {
      dest[1] := Xor(dest[1], len);
    }
    if 125 < len <= U16_MAX {
      if dest.Length < 4 {
        return Some(NEED8);
      }
      dest[1] := Xor(dest[1], 126);
      var be := BigEndian(len, 2);
      dest[2], dest[3] := be[0], be[1];
      assert dest[2..4] == be;
    }
    if len > U16_MAX {
      if dest.Length < 10 {
        return Some(NEED14);
      }
      dest[1] := Xor(dest[1], 127);
      var be := BigEndian(len, 8);
      forall i | 0 <= i < 8 {
        dest[2 + i] := be[i];
      }
      assert dest[2..10] == be;
    }
    return None;
  }

  /** The masking key part of `encode`: XORed into the four bytes at
      `offset`. */
  method EncodeKey(key: seq<byte>, dest: array<byte>, offset: nat)
    requires |key| == 4 && offset + 4 <= dest.Length
    modifies dest
    ensures dest[..] == Keyed(old(dest[..]), key, offset)
  {
    dest[offset] := Xor(dest[offset], key[0]);
    dest[offset + 1] := Xor(dest[offset + 1], key[1]);
    dest[offset + 2] := Xor(dest[offset + 2], key[2]);
    dest[offset + 3] := Xor(dest[offset + 3], key[3]);
  }

  /** `WebsocketFrame::encode`: XORs the header into `dest` (the extended
      length is assigned) and returns its length. */
  method Encode(f: Frame, dest: array<byte>) returns (r: Result<nat, WebsocketError>)
    requires f.len < USIZE && (f.mask.Some? ==> |f.mask.value| == 4)
    requires f.mask.Some? && EncodeError(f, dest.Length).None? ==> MaskOffset(f.len) + 4 <= dest.Length
    modifies dest
    ensures EncodeError(f, dest.Length).Some? ==> r == Err(Unsupported(EncodeError(f, dest.Length).value))
    ensures EncodeError(f, dest.Length).None? ==> r.Ok? && r.value == MaskOffset(f.len) + |Key(f)| <= dest.Length
    ensures dest.Length < 2 ==> dest[..] == old(dest[..])
    ensures dest.Length >= 2 ==> dest[0] == Xor(Xor(old(dest[0]), FinBit(f)), f.opcode % 16)
    ensures dest.Length >= 2 && r.Err? ==> dest[1] == Xor(old(dest[1]), MaskBit(f))
    ensures r.Ok? ==> dest[..] == Encoded(old(dest[..]), f)
    ensures r.Err? ==> forall k :: 2 <= k < dest.Length ==> dest[k] == old(dest[k])
  {
    if dest.Length < 2 {
      return Err(Unsupported(NEED6));
    }
    ghost var before := dest[..];
    EncodeFlags(f, dest);
    var err := EncodeLength(f.len, dest);
    if err.Some? {
      return Err(Unsupported(err.value));
    }
    var maskOffset := MaskOffset(f.len);
    if f.mask.Some? {
      EncodeKey(f.mask.value, dest, maskOffset);
      r := Ok(maskOffset + 4);
    } else {
      assert Keyed(dest[..], [], maskOffset) == dest[..];
      r := Ok(maskOffset);
    }
    EncodedBySteps(before, f);
  }

  /** Encoding a well-formed frame into a zeroed buffer and decoding what
      was written gives the frame back. */
  lemma EncodeDecode(f: Frame, n: nat)
    requires Wellformed(f) && MaskOffset(f.len) + |Key(f)| <= n
    ensures DecodeFixed(Encoded(Zeros(n), f)[..|Header(f)|]) == Ok(f)
  {
    EncodedZeroed(f, n);
    DecodeFixedRoundTrip(f, []);
    assert Header(f) + [] == Header(f);
  }

  // ---------------------------------------------------------------------------
  // Masking

  /** Each payload byte XORed with the key byte at its position modulo 4. */
  function Masked(d: seq<byte>, key: seq<byte>): (r: seq<byte>)
    requires |key| == 4
    ensures |r| == |d|
    ensures forall i :: 0 <= i < |d| ==> r[i] == Xor(d[i], key[i % 4])
  {
    seq(|d|, i requires 0 <= i < |d| => Xor(d[i], key[i % 4]))
  }

  /** Masking is its own inverse: the sender masks, the receiver unmasks. */
  lemma MaskedTwice(d: seq<byte>, key: seq<byte>)
    requires |key| == 4
    ensures Masked(Masked(d, key), key) == d
  {
    var m := Masked(Masked(d, key), key);
    forall i | 0 <= i < |d|
      ensures m[i] == d[i]
    {
      XorCancel(d[i], key[i % 4]);
    }
  }

  /** `apply_mask`: unmasks the first `f.len` bytes in place when the frame
      carries a key. */
  method ApplyMask(f: Frame, data: array<byte>)
    requires f.mask.Some? ==> |f.mask.value| == 4 && f.len <= data.Length
    modifies data
    ensures f.mask.Some? ==> data[..f.len] == Masked(old(data[..f.len]), f.mask.value)
    ensures forall k :: 0 <= k < data.Length && !(f.mask.Some? && k < f.len) ==> data[k] == old(data[k])
  {
    if f.mask.Some? {
      var mask := f.mask.value;
      for i := 0 to f.len
        invariant forall k :: 0 <= k < i ==> data[k] == Xor(old(data[k]), mask[k % 4])
        invariant forall k :: i <= k < data.Length ==> data[k] == old(data[k])
      {
        data[i] := Xor(data[i], mask[i % 4]);
      }
    }
  }

  // ---------------------------------------------------------------------------
  // Receiving and sending over a connection

  const BUFFER_TOO_SMALL := "payload length exceeds buffer size"

  /** A received frame header and its unmasked payload. */
  datatype Received = Received(frame: Frame, payload: seq<byte>)

  /** The decoder `receive` calls: as written, or `fixed`. */
  function DecodeWith(value: seq<byte>, fixed: bool): (r: Result<Frame, WebsocketError>)
    ensures r.Ok? ==> Wellformed(r.value)
    ensures r.Err? && r.error.InsufficientData? ==> r.error.missing > 0 && |value| + r.error.missing <= 14
  {
    if fixed then DecodeFixed(value) else Decode(value)
  }

  /** The header loop of `receive`: decode what has been read so far and,
      while the decoder asks for `n` more bytes, read exactly `n` more. */
  function HeaderSpec(input: seq<ReadResult>, have: seq<byte>, fixed: bool): (r: (Result<Frame, WebsocketError>, seq<ReadResult>))
    requires |have| <= 14
    ensures r.0.Ok? ==> Wellformed(r.0.value)
    decreases 14 - |have|
  {
    var d := DecodeWith(have, fixed);
    if d.Err? && d.error.InsufficientData? then
      var got := ReadExactSpec(input, d.error.missing);
      if got.0.None? then (Err(NetworkError), got.1)
      else HeaderSpec(got.1, have + got.0.value, fixed)
    else (d, input)
  }

  /** The header part of `receive`: six bytes first, then the header loop. */
  function HeaderPhase(input: seq<ReadResult>, fixed: bool): (r: (Result<Frame, WebsocketError>, seq<ReadResult>))
    ensures r.0.Ok? ==> Wellformed(r.0.value)
  {
    var first := ReadExactSpec(input, 6);
    if first.0.None? then (Err(NetworkError), first.1)
    else HeaderSpec(first.1, first.0.value, fixed)
  }

  /** One turn of the header loop: the bytes read are appended. */
  lemma HeaderSpecStep(input: seq<ReadResult>, have: seq<byte>, fixed: bool, n: nat, got: seq<byte>, rest: seq<ReadResult>)
    requires |have| <= 14 && DecodeWith(have, fixed) == Err(InsufficientData(n))
    requires ReadExactSpec(input, n) == (Some(got), rest)
    ensures |have + got| <= 14
    ensures HeaderSpec(input, have, fixed) == HeaderSpec(rest, have + got, fixed)
  {
  }

  /** The header loop never adds input. */
  lemma {:induction false} HeaderSpecShrinks(input: seq<ReadResult>, have: seq<byte>, fixed: bool)
    requires |have| <= 14
    ensures Remaining(HeaderSpec(input, have, fixed).1) <= Remaining(input)
    decreases 14 - |have|
  {
    var d := DecodeWith(have, fixed);
    if d.Err? && d.error.InsufficientData? {
      var got := ReadExactSpec(input, d.error.missing);
      ReadExactShrinks(input, d.error.missing);
      if got.0.Some? {
        HeaderSpecShrinks(got.1, have + got.0.value, fixed);
      }
    }
  }

  /** `receive` never adds input, and a received frame uses some up: its
      header is at least six bytes. */
  lemma ReceiveShrinks(input: seq<ReadResult>, room: nat, fixed: bool)
    ensures Remaining(ReceiveSpec(input, room, fixed).1) <= Remaining(input)
    ensures ReceiveSpec(input, room, fixed).0.Ok? ==> Remaining(ReceiveSpec(input, room, fixed).1) < Remaining(input)
  {
    ReadExactShrinks(input, 6);
    var first := ReadExactSpec(input, 6);
    if first.0.Some? {
      HeaderSpecShrinks(first.1, first.0.value, fixed);
      var h := HeaderSpec(first.1, first.0.value, fixed);
      if h.0.Ok? {
        ReadExactShrinks(h.1, h.0.value.len);
      }
    }
  }

  /** `Websocket::receive` into a buffer of `room` bytes: the header, then
      exactly the payload, unmasked. Any read failure or early end of
      stream is a `NetworkError`. `fixed` selects the decoder. */
  function ReceiveSpec(input: seq<ReadResult>, room: nat, fixed: bool): (r: (Result<Received, WebsocketError>, seq<ReadResult>))
    ensures r.0.Ok? ==> Wellformed(r.0.value.frame) && |r.0.value.payload| == r.0.value.frame.len <= room
  {
    var h := HeaderPhase(input, fixed);
    if h.0.Err? then (Err(h.0.error), h.1)
    else
      var f := h.0.value;
      if f.len > room then (Err(Unsupported(BUFFER_TOO_SMALL)), h.1)
      else
        var p := ReadExactSpec(h.1, f.len);
        if p.0.None? then (Err(NetworkError), p.1)
        else (Ok(Received(f, if f.masked then Masked(p.0.value, f.mask.value) else p.0.value)), p.1)
  }

  /** The frame `send` wraps its data in: final, binary, unmasked. */
  function SendFrame(len: nat): Frame {
    Frame(2, len, true, false, None)
  }

  /** On a prefix of an encoded header whose length is not 127, the decoder
      as written agrees with the fixed one. */
  lemma DecodeAgreesOnHeader(f: Frame, have: seq<byte>)
    requires Wellformed(f) && f.len != 127 && 2 <= |have| <= |Header(f)| && have == Header(f)[..|have|]
    ensures Decode(have) == DecodeFixed(have)
  {
    var h := Header(f);
    if |have| >= 4 && have[1] % 128 == 126 {
      HeaderFlags(f);
      assert have[1] == h[1];
      assert have[2..4] == h[2..4] == LenBytes(f.len);
      LenBytesRoundTrip(f.len);
    }
    DecodeAgrees(have);
  }

  lemma DecodeWithOnHeader(f: Frame, have: seq<byte>, fixed: bool)
    requires Wellformed(f) && 2 <= |have| <= |Header(f)| && have == Header(f)[..|have|]
    requires fixed || f.len != 127
    ensures DecodeWith(have, fixed) == DecodeFixed(have)
  {
    if !fixed {
      DecodeAgreesOnHeader(f, have);
    }
  }

  /** Reading the next `n` bytes of a stream that holds the rest of `h`
      extends the prefix in hand. */
  lemma HeaderRest(h: seq<byte>, have: seq<byte>, got: seq<byte>, n: nat, tail: seq<byte>, s: seq<byte>, s1: seq<byte>)
    requires |have| + n <= |h| && have == h[..|have|]
    requires s == h[|have|..] + tail && got == s[..n] && s1 == s[n..]
    ensures have + got == h[..|have| + n]
    ensures s1 == h[|have| + n..] + tail
  {
    assert got == h[|have|..|have| + n];
  }

  /** The header loop only ever reads the bytes of an encoded header: with
      a prefix of it in hand and the rest of it next in the stream, the
      frame is decoded and the stream continues right after the header.
      The decoder as written needs a length other than 127. */
  lemma {:induction false} HeaderSpecStream(input: seq<ReadResult>, have: seq<byte>, f: Frame, tail: seq<byte>, fixed: bool)
    requires Wellformed(f) && 2 <= |have| <= |Header(f)| && have == Header(f)[..|have|]
    requires fixed || f.len != 127
    requires Stream(input) == Header(f)[|have|..] + tail
    ensures HeaderSpec(input, have, fixed).0 == Ok(f)
    ensures Stream(HeaderSpec(input, have, fixed).1) == tail
    decreases |Header(f)| - |have|
  {
    var h := Header(f);
    DecodeWithOnHeader(f, have, fixed);
    if |have| == |h| {
      DecodeFixedRoundTrip(f, []);
      assert have == h + [];
    } else {
      DecodeFixedPrefix(f, have);
      var n := DecodeFixed(have).error.missing;
      ReadExactStream(input, n);
      var got := ReadExactSpec(input, n);
      HeaderSpecStep(input, have, fixed, n, got.0.value, got.1);
      HeaderRest(h, have, got.0.value, n, tail, Stream(input), Stream(got.1));
      HeaderSpecStream(got.1, have + got.0.value, f, tail, fixed);
    }
  }

  /** A masked frame on the stream is received whole: the header decodes to
      the frame, the payload comes back unmasked, and the stream continues
      after it. With the decoder as written this needs a length other than
      127; with the fixed one it holds for every frame. */
  lemma ReceiveStream(input: seq<ReadResult>, room: nat, f: Frame, p: seq<byte>, more: seq<byte>, fixed: bool)
    requires Wellformed(f) && f.masked && |p| == f.len <= room
    requires fixed || f.len != 127
    requires Stream(input) == Header(f) + Masked(p, f.mask.value) + more
    ensures ReceiveSpec(input, room, fixed).0 == Ok(Received(f, p))
    ensures Stream(ReceiveSpec(input, room, fixed).1) == more
  {
    var h := Header(f);
    var body := Masked(p, f.mask.value);
    ReadExactStream(input, 6);
    var first := ReadExactSpec(input, 6);
    assert first.0.value == h[..6];
    assert Stream(first.1) == h[6..] + (body + more);
    HeaderSpecStream(first.1, first.0.value, f, tail := body + more, fixed := fixed);
    var hs := HeaderPhase(input, fixed);
    ReadExactStream(hs.1, f.len);
    var got := ReadExactSpec(hs.1, f.len);
    assert got.0.value == body;
    MaskedTwice(p, f.mask.value);
  }

  /** As written, `receive` rejects every masked frame whose payload is 127
      bytes long: after the six bytes of its first read the decoder asks for
      six more, and then reads key and payload bytes as a 64-bit length.
      Twelve bytes are consumed. */
  lemma ReceiveMisses127(input: seq<ReadResult>, room: nat, key: seq<byte>, p: seq<byte>, more: seq<byte>)
    requires |key| == 4 && |p| == 127
    requires Stream(input) == Header(Frame(2, 127, true, true, Some(key))) + Masked(p, key) + more
    ensures Header(Frame(2, 127, true, true, Some(key))) == [0x82, 0xFE, 0, 127] + key
    ensures ReceiveSpec(input, room, false).0 == Err(Unsupported(TOO_LONG))
    ensures Stream(ReceiveSpec(input, room, false).1) == Stream(input)[12..]
  {
    var f := Frame(2, 127, true, true, Some(key));
    assert BigEndian(127, 2) == [0, 127];
    assert Header(f) == [0x82, 0xFE] + [0, 127] + key;
    var s := Stream(input);
    assert s[..4] == [0x82, 0xFE, 0, 127];
    ReadExactStream(input, 6);
    var first := ReadExactSpec(input, 6);
    ReadExactStream(first.1, 6);
    var second := ReadExactSpec(first.1, 6);
    assert first.0.value + second.0.value == s[..12];
    Decode127(s[..12]);
    HeaderSpecStep(first.1, first.0.value, false, 6, second.0.value, second.1);
  }

  /** The decoder as written on the first six and then twelve bytes of a
      frame announcing a 16-bit length of 127. */
  lemma Decode127(w: seq<byte>)
    requires |w| == 12 && w[..4] == [0x82, 0xFE, 0, 127]
    ensures Decode(w[..6]) == Err(InsufficientData(6))
    ensures Decode(w) == Err(Unsupported(TOO_LONG))
  {
    var v := w[..6];
    assert v[2..4] == w[2..4] == [0, 127];
    assert FromBigEndian([0, 127]) == 127 by {
      assert [0, 127][..1] == [0];
      assert FromBigEndian([0]) == 0 by { assert [0 as byte][..0] == []; }
    }
    Reread127(w);
  }

  /** `Websocket`: frames over a borrowed connection. */
  class Websocket {
    const conn: Client

    constructor (conn: Client)
      ensures this.conn == conn
    {
      this.conn := conn;
    }

    /** The header part of `receive`, as `HeaderPhase` says for the decoder
        as written. */
    method ReceiveHeader() returns (r: Result<Frame, WebsocketError>)
      modifies conn
      ensures r == HeaderPhase(old(conn.input), false).0 && conn.input == HeaderPhase(old(conn.input), false).1
      ensures conn.out == old(conn.out) && conn.budget == old(conn.budget)
    {
      var headerBuf := new byte[14](_ => 0);
      var ok := conn.ReadExactInto(headerBuf, 0, 6);
      if !ok {
        return Err(NetworkError);
      }
      ghost var afterFirst := conn.input;
      ghost var first := headerBuf[..6];
      var offset := 6;
      while true
        invariant 6 <= offset <= 14
        invariant HeaderSpec(conn.input, headerBuf[..offset], false) == HeaderSpec(afterFirst, first, false)
        invariant conn.out == old(conn.out) && conn.budget == old(conn.budget)
        decreases 14 - offset
      {
        ghost var have := headerBuf[..offset];
        ghost var before := conn.input;
        var decoded := Decode(headerBuf[..offset]);
        if decoded.Ok? || !decoded.error.InsufficientData? {
          return decoded;
        }
        var n := decoded.error.missing;
        ok := conn.ReadExactInto(headerBuf, offset, n);
        if !ok {
          return Err(NetworkError);
        }
        ghost var got := headerBuf[offset..offset + n];
        HeaderSpecStep(before, have, false, n, got, conn.input);
        assert headerBuf[..offset + n] == have + got;
        offset := offset + n;
      }
    }

    /** `receive`: the frame and, in `buf`, its unmasked payload, as
        `ReceiveSpec` says; nothing is written to the connection. */
    method Receive(buf: array<byte>) returns (r: Result<Frame, WebsocketError>)
      modifies conn, buf
      ensures r.Ok? == ReceiveSpec(old(conn.input), buf.Length, false).0.Ok?
      ensures r.Err? ==> ReceiveSpec(old(conn.input), buf.Length, false).0 == Err(r.error)
      ensures r.Ok? ==> r.value.len <= buf.Length
      ensures r.Ok? ==> ReceiveSpec(old(conn.input), buf.Length, false).0.value == Received(r.value, buf[..r.value.len])
      ensures conn.input == ReceiveSpec(old(conn.input), buf.Length, false).1
      ensures conn.out == old(conn.out) && conn.budget == old(conn.budget)
    {
      var h := ReceiveHeader();
      if h.Err? {
        return h;
      }
      var header := h.value;
      if header.len > buf.Length {
        return Err(Unsupported(BUFFER_TOO_SMALL));
      }
      var ok := conn.ReadExactInto(buf, 0, header.len);
      if !ok {
        return Err(NetworkError);
      }
      if header.masked {
        ApplyMask(header, buf);
      }
      return Ok(header);
    }

    /** The header `send` encodes into a zeroed 14-byte buffer. */
    static method SendHeader(len: nat) returns (header: seq<byte>)
      requires len < USIZE
      ensures header == Header(SendFrame(len))
    {
      var f := SendFrame(len);
      var encoded := new byte[14](_ => 0);
      assert encoded[..] == Zeros(14);
      var headerLen := Encode(f, encoded);
      EncodedZeroed(f, 14);
      header := encoded[..headerLen.value];
    }

    /** `send`: the header of a final binary frame, then the data; the
        first failed write ends it with a `NetworkError`. */
    method Send(data: seq<byte>) returns (r: Result<(), WebsocketError>)
      requires |data| < USIZE
      modifies conn
      ensures conn.out == old(conn.out) + Sent([Header(SendFrame(|data|)), data], old(conn.budget))
      ensures conn.budget == Left(old(conn.budget), 2) && conn.input == old(conn.input)
      ensures r.Ok? <==> old(conn.budget) >= 2
      ensures r.Err? ==> r.error == NetworkError
    {
      var f := SendFrame(|data|);
      var header := SendHeader(|data|);
      SentFront(header, [data], conn.budget);
      assert [header] + [data] == [Header(f), data];
      var ok := conn.WriteAll(header);
      if !ok {
        assert Sent([data], 0) == [] by { SentIsPrefix([data], 0); }
        return Err(NetworkError);
      }
      ok := conn.WriteAll(data);
      if !ok {
        return Err(NetworkError);
      }
      return Ok(());
    }
  }
}
