/** The WS2812B LED driver (`WS2812B`) shared by both firmwares, the colour
    presets of the firmware's status light (`LightColor`) and the flicker of the
    doorctrl `LED`.

    A WS2812B takes 24 bits per LED, green then red then blue, most significant
    bit first. Each bit is one RMT pulse code: a one is high for 14 ticks and low
    for 12, a zero is high for 7 ticks and low for 16 (ticks of 50 ns). A chain
    of `num` LEDs gets `num` copies of the packet, then an end marker.

    The RMT channel is modelled by the transmissions it has accepted (`shown`)
    and by `budget`, the number of further transmissions that succeed: once the
    channel fails it keeps failing, and a failed transmission shows nothing. */
module Ws2812 {
  import opened Common

  const PACKET_SIZE: nat := 24
  const MAX_NUM_OF_LEDS: nat := 256

  datatype Level = Low | High

  /** An RMT pulse code: a level held for a number of ticks, then another. */
  datatype PulseCode = PulseCode(level1: Level, length1: nat, level2: Level, length2: nat)

  /** `PulseCode::default()`, which is also the end marker `PulseCode::end_marker()`
      and `PulseCode::empty()`: both halves low for zero ticks. */
  const EMPTY: PulseCode := PulseCode(Low, 0, Low, 0)
  const END_MARKER: PulseCode := EMPTY
  const BIT_ONE: PulseCode := PulseCode(High, 14, Low, 12)
  const BIT_ZERO: PulseCode := PulseCode(High, 7, Low, 16)

  datatype Error = TooManyLeds | RmtError

  // ---------------------------------------------------------------------------
  // The packet

  /** `b >> k` on a byte. */
  function Shr(b: nat, k: nat): nat {
    if k == 0 then b else Shr(b, k - 1) / 2
  }

  /** Bit `k` of `b`: `(b >> k) & 0x01 == 0x01`. */
  predicate BitSet(b: byte, k: nat) {
    Shr(b, k) % 2 == 1
  }

  function Code(one: bool): PulseCode {
    if one then BIT_ONE else BIT_ZERO
  }

  /** Pulse `j` of the eight codes of `x`, most significant bit first. */
  function BitPulse(x: byte, j: int): PulseCode {
    if 0 <= j < 8 then Code(BitSet(x, 7 - j)) else EMPTY
  }

  /** Pulse `j` of the packet for the colour (`r`, `g`, `b`). */
  function PacketPulse(r: byte, g: byte, b: byte, j: int): PulseCode {
    if j < 8 then BitPulse(g, j)
    else if j < 16 then BitPulse(r, j - 8)
    else BitPulse(b, j - 16)
  }

  /** The 24 pulse codes of one LED. */
  function Packet(r: byte, g: byte, b: byte): (p: seq<PulseCode>)
    ensures |p| == PACKET_SIZE
    ensures forall j :: 0 <= j < PACKET_SIZE ==> p[j] == PacketPulse(r, g, b, j)
  {
    seq(PACKET_SIZE, j => PacketPulse(r, g, b, j))
  }

  /** The eight pulse codes of one byte, most significant bit first. */
  function ByteCode(x: byte): (p: seq<PulseCode>)
    ensures |p| == 8
    ensures forall j :: 0 <= j < 8 ==> p[j] == BitPulse(x, j)
  {
    seq(8, j => BitPulse(x, j))
  }

  /** The packet is the green byte, the red byte and the blue byte. */
  lemma PacketIsGrb(r: byte, g: byte, b: byte)
    ensures Packet(r, g, b) == ByteCode(g) + ByteCode(r) + ByteCode(b)
  {
    var p := Packet(r, g, b);
    var q := ByteCode(g) + ByteCode(r) + ByteCode(b);
    forall j | 0 <= j < PACKET_SIZE
      ensures p[j] == q[j]
    {
      if j < 8 {
      } else if j < 16 {
        assert q[j] == ByteCode(r)[j - 8];
      } else {
        assert q[j] == ByteCode(b)[j - 16];
      }
    }
  }

  /** Reading pulse codes back as bits, most significant first: what a
      WS2812B does with the stream. */
  function Value(p: seq<PulseCode>): nat {
    if p == [] then 0 else Value(p[..|p| - 1]) * 2 + (if p[|p| - 1] == BIT_ONE then 1 else 0)
  }

  lemma ShrEight(x: byte)
    ensures Shr(x, 8) == 0
  {
    assert Shr(x, 1) < 128;
    assert Shr(x, 2) < 64;
    assert Shr(x, 3) < 32;
    assert Shr(x, 4) < 16;
    assert Shr(x, 5) < 8;
    assert Shr(x, 6) < 4;
    assert Shr(x, 7) < 2;
  }

  lemma {:induction false} ValuePrefix(x: byte, n: nat)
    requires n <= 8
    ensures Value(ByteCode(x)[..n]) == Shr(x, 8 - n)
  {
    if n == 0 {
      ShrEight(x);
    } else {
      ValuePrefix(x, n - 1);
      var p := ByteCode(x)[..n];
      assert p[..n - 1] == ByteCode(x)[..n - 1];
      assert p[n - 1] == BitPulse(x, n - 1) == Code(BitSet(x, 8 - n));
      assert BIT_ONE != BIT_ZERO;
      assert Shr(x, 9 - n) == Shr(x, 8 - n) / 2;
    }
  }

  /** The eight codes of a byte read back as that byte. */
  lemma ByteCodeValue(x: byte)
    ensures Value(ByteCode(x)) == x
  {
    ValuePrefix(x, 8);
    assert ByteCode(x)[..8] == ByteCode(x);
  }

  /** The LED decodes the colour it was sent: green from pulses 0..8, red from
      8..16, blue from 16..24. Distinct colours therefore give distinct packets. */
  lemma PacketDecodes(r: byte, g: byte, b: byte)
    ensures Value(Packet(r, g, b)[0..8]) == g
    ensures Value(Packet(r, g, b)[8..16]) == r
    ensures Value(Packet(r, g, b)[16..24]) == b
  {
    PacketIsGrb(r, g, b);
    var p := Packet(r, g, b);
    assert p[0..8] == ByteCode(g);
    assert p[8..16] == ByteCode(r);
    assert p[16..24] == ByteCode(b);
    ByteCodeValue(g);
    ByteCodeValue(r);
    ByteCodeValue(b);
  }

  lemma PacketInjective(r: byte, g: byte, b: byte, r': byte, g': byte, b': byte)
    requires Packet(r, g, b) == Packet(r', g', b')
    ensures r == r' && g == g' && b == b'
  {
    PacketDecodes(r, g, b);
    PacketDecodes(r', g', b');
  }

  // ---------------------------------------------------------------------------
  // The transmitted frame

  /** `num` copies of `p`. */
  function Repeat(p: seq<PulseCode>, num: nat): (s: seq<PulseCode>)
    ensures |s| == num * |p|
  {
    if num == 0 then [] else Repeat(p, num - 1) + p
  }

  lemma {:induction false} RepeatAt(p: seq<PulseCode>, num: nat, j: nat)
    requires |p| == PACKET_SIZE && j < num * PACKET_SIZE
    ensures Repeat(p, num)[j] == p[j % PACKET_SIZE]
  {
    var last := (num - 1) * PACKET_SIZE;
    assert Repeat(p, num) == Repeat(p, num - 1) + p;
    if j < last {
      RepeatAt(p, num - 1, j);
    } else {
      BlockMod(num - 1, j - last);
    }
  }

  /** Position `k` of block `i` is at `i * 24 + k`. */
  lemma BlockMod(i: nat, k: nat)
    requires k < PACKET_SIZE
    ensures (i * PACKET_SIZE + k) % PACKET_SIZE == k
  {
  }

  /** What `play(num)` hands to the channel: `num` packets and the end marker. */
  function Frame(num: nat, r: byte, g: byte, b: byte): (s: seq<PulseCode>)
    ensures |s| == num * PACKET_SIZE + 1
  {
    Repeat(Packet(r, g, b), num) + [END_MARKER]
  }

  /** LED `i` of the chain is sent the packet of the colour, and the frame ends
      with the marker. */
  lemma FrameLeds(num: nat, r: byte, g: byte, b: byte, i: nat)
    requires i < num
    ensures Frame(num, r, g, b)[i * PACKET_SIZE..(i + 1) * PACKET_SIZE] == Packet(r, g, b)
    ensures Frame(num, r, g, b)[num * PACKET_SIZE] == END_MARKER
  {
    var p := Packet(r, g, b);
    var f := Frame(num, r, g, b);
    forall k | 0 <= k < PACKET_SIZE
      ensures f[i * PACKET_SIZE + k] == p[k]
    {
      RepeatAt(p, num, i * PACKET_SIZE + k);
      BlockMod(i, k);
    }
  }

  /** The outcome of `play(num)` with `budget` transmissions left. */
  function PlayOutcome(num: nat, budget: nat): Option<Error> {
    if num >= MAX_NUM_OF_LEDS - 1 then Some(TooManyLeds)
    else if budget == 0 then Some(RmtError)
    else None
  }

  // ---------------------------------------------------------------------------
  // The driver

  class WS2812B {
    var red: byte
    var green: byte
    var blue: byte
    /** The frames the RMT channel has transmitted, oldest first. */
    var shown: seq<seq<PulseCode>>
    /** Transmissions that still succeed. */
    var budget: nat

    /** `new`: every colour channel 0. */
    constructor (budget: nat)
      ensures red == 0 && green == 0 && blue == 0
      ensures shown == [] && this.budget == budget
    {
      red, green, blue := 0, 0, 0;
      shown := [];
      this.budget := budget;
    }

    /** `build_packet`: one pulse per bit of green, red and blue, high bit first. */
    method BuildPacket() returns (data: array<PulseCode>)
      ensures fresh(data)
      ensures data[..] == Packet(red, green, blue)
    {
      data := new PulseCode[PACKET_SIZE](_ => EMPTY);
      var bytes := [green, red, blue];
      var index := 0;
      for k := 0 to 3
        invariant index == 8 * k
        invariant forall j :: 0 <= j < index ==> data[j] == PacketPulse(red, green, blue, j)
      {
        var x := bytes[k];
        var bitIndex := 8;
        while bitIndex > 0
          invariant 0 <= bitIndex <= 8
          invariant index == 8 * k + (8 - bitIndex)
          invariant forall j :: 0 <= j < index ==> data[j] == PacketPulse(red, green, blue, j)
        {
          bitIndex := bitIndex - 1;
          if Shr(x, bitIndex) % 2 == 1 {
            data[index] := BIT_ONE;
          } else {
            data[index] := BIT_ZERO;
          }
          assert index % 8 == 7 - bitIndex && index / 8 == k;
          index := index + 1;
        }
      }
    }

    /** `play(num)`: `num` copies of the packet and the end marker, sent in one
        transmission; 255 LEDs or more are refused before anything is sent. */
    method Play(num: nat) returns (err: Option<Error>)
      modifies this
      ensures err == PlayOutcome(num, old(budget))
      ensures shown == old(shown) + (if err == None then [Frame(num, red, green, blue)] else [])
      ensures budget == (if num >= MAX_NUM_OF_LEDS - 1 then old(budget) else if old(budget) == 0 then 0 else old(budget) - 1)
      ensures red == old(red) && green == old(green) && blue == old(blue)
    {
      if num >= MAX_NUM_OF_LEDS - 1 {
        return Some(TooManyLeds);
      }
      var data := new PulseCode[PACKET_SIZE * MAX_NUM_OF_LEDS](_ => EMPTY);
      var packet := BuildPacket();
      ghost var p := packet[..];
      for i := 0 to num
        modifies data
        invariant forall j :: 0 <= j < i * PACKET_SIZE ==> data[j] == p[j % PACKET_SIZE]
      {
        var index := i * PACKET_SIZE;
        forall k | 0 <= k < PACKET_SIZE {
          data[index + k] := packet[k];
        }
        forall j | index <= j < index + PACKET_SIZE
          ensures data[j] == p[j % PACKET_SIZE]
        {
          BlockMod(i, j - index);
        }
      }
      data[num * PACKET_SIZE] := END_MARKER;
      err := Dispatch(data, num * PACKET_SIZE + 1);
      ghost var f := Frame(num, red, green, blue);
      forall j | 0 <= j < num * PACKET_SIZE + 1
        ensures data[j] == f[j]
      {
        if j < num * PACKET_SIZE {
          RepeatAt(p, num, j);
        }
      }
      assert data[..num * PACKET_SIZE + 1] == f;
    }

    /** `dispatch`: the channel transmits `data[..n]`, or fails. */
    method Dispatch(data: array<PulseCode>, n: nat) returns (err: Option<Error>)
      requires n <= data.Length
      modifies this
      ensures err == (if old(budget) == 0 then Some(RmtError) else None)
      ensures shown == old(shown) + (if err == None then [data[..n]] else [])
      ensures budget == (if old(budget) == 0 then 0 else old(budget) - 1)
      ensures red == old(red) && green == old(green) && blue == old(blue)
    {
      if budget == 0 {
        return Some(RmtError);
      }
      shown := shown + [data[..n]];
      budget := budget - 1;
      return None;
    }

    /** `set_colors`: the fields take the new colour before one LED is played,
        so they hold it even when the transmission fails. */
    method SetColors(r: byte, g: byte, b: byte) returns (err: Option<Error>)
      modifies this
      ensures red == r && green == g && blue == b
      ensures err == PlayOutcome(1, old(budget))
      ensures shown == old(shown) + (if err == None then [Frame(1, r, g, b)] else [])
      ensures budget == (if old(budget) == 0 then 0 else old(budget) - 1)
    {
      red, green, blue := r, g, b;
      err := Play(1);
    }

    method SetRed(r: byte) returns (err: Option<Error>)
      modifies this
      ensures red == r && green == 0 && blue == 0
      ensures err == PlayOutcome(1, old(budget))
      ensures shown == old(shown) + (if err == None then [Frame(1, r, 0, 0)] else [])
      ensures budget == (if old(budget) == 0 then 0 else old(budget) - 1)
    {
      err := SetColors(r, 0, 0);
    }

    method SetGreen(g: byte) returns (err: Option<Error>)
      modifies this
      ensures red == 0 && green == g && blue == 0
      ensures err == PlayOutcome(1, old(budget))
      ensures shown == old(shown) + (if err == None then [Frame(1, 0, g, 0)] else [])
      ensures budget == (if old(budget) == 0 then 0 else old(budget) - 1)
    {
      err := SetColors(0, g, 0);
    }

    method SetBlue(b: byte) returns (err: Option<Error>)
      modifies this
      ensures red == 0 && green == 0 && blue == b
      ensures err == PlayOutcome(1, old(budget))
      ensures shown == old(shown) + (if err == None then [Frame(1, 0, 0, b)] else [])
      ensures budget == (if old(budget) == 0 then 0 else old(budget) - 1)
    {
      err := SetColors(0, 0, b);
    }
  }

  /** A single LED shows the colour it was set to. */
  lemma OneLedShowsColour(r: byte, g: byte, b: byte)
    ensures |Frame(1, r, g, b)| == 25
    ensures Value(Frame(1, r, g, b)[0..8]) == g
    ensures Value(Frame(1, r, g, b)[8..16]) == r
    ensures Value(Frame(1, r, g, b)[16..24]) == b
    ensures Frame(1, r, g, b)[24] == END_MARKER
  {
    var f := Frame(1, r, g, b);
    FrameLeds(1, r, g, b, 0);
    assert f[0..24] == Packet(r, g, b);
    assert f[0..8] == Packet(r, g, b)[0..8];
    assert f[8..16] == Packet(r, g, b)[8..16];
    assert f[16..24] == Packet(r, g, b)[16..24];
    PacketDecodes(r, g, b);
  }

  // ---------------------------------------------------------------------------
  // The firmware's colour presets

  const LIGHT_INTENSITY_DEFAULT: byte := 32

  datatype LightColor = LightColor(r: byte, g: byte, b: byte) {
    function WithRed(x: byte): (c: LightColor)
      ensures c.r == x && c.g == g && c.b == b
    {
      this.(r := x)
    }

    function WithGreen(x: byte): (c: LightColor)
      ensures c.r == r && c.g == x && c.b == b
    {
      this.(g := x)
    }

    function WithBlue(x: byte): (c: LightColor)
      ensures c.r == r && c.g == g && c.b == x
    {
      this.(b := x)
    }
  }

  const DEFAULT_COLOR: LightColor := LightColor(0, 0, 0)

  function Off(): (c: LightColor)
    ensures c == LightColor(0, 0, 0)
  {
    DEFAULT_COLOR
  }

  function Red(): (c: LightColor)
    ensures c == LightColor(32, 0, 0)
  {
    DEFAULT_COLOR.WithRed(LIGHT_INTENSITY_DEFAULT)
  }

  function Green(): (c: LightColor)
    ensures c == LightColor(0, 32, 0)
  {
    DEFAULT_COLOR.WithGreen(LIGHT_INTENSITY_DEFAULT)
  }

  function Blue(): (c: LightColor)
    ensures c == LightColor(0, 0, 32)
  {
    DEFAULT_COLOR.WithBlue(LIGHT_INTENSITY_DEFAULT)
  }

  function Amber(): (c: LightColor)
    ensures c == LightColor(32, 16, 0)
  {
    DEFAULT_COLOR.WithRed(LIGHT_INTENSITY_DEFAULT).WithGreen(16)
  }

  /** The five presets are five different colours on the wire. */
  lemma PresetsDistinct()
    ensures forall c, d :: c in [Off(), Red(), Green(), Blue(), Amber()] && d in [Off(), Red(), Green(), Blue(), Amber()] && c != d
              ==> Packet(c.r, c.g, c.b) != Packet(d.r, d.g, d.b)
  {
    forall c, d | c in [Off(), Red(), Green(), Blue(), Amber()] && d in [Off(), Red(), Green(), Blue(), Amber()] && c != d
      ensures Packet(c.r, c.g, c.b) != Packet(d.r, d.g, d.b)
    {
      if Packet(c.r, c.g, c.b) == Packet(d.r, d.g, d.b) {
        PacketInjective(c.r, c.g, c.b, d.r, d.g, d.b);
      }
    }
  }

  // ---------------------------------------------------------------------------
  // The doorctrl LED

  class Led {
    var inner: WS2812B

    constructor (inner: WS2812B)
      ensures this.inner == inner
    {
      this.inner := inner;
    }

    /** `set_color_rgb`: `set_colors` with the same arguments. */
    method SetColorRgb(r: byte, g: byte, b: byte) returns (err: Option<Error>)
      modifies inner
      ensures inner.red == r && inner.green == g && inner.blue == b
      ensures err == PlayOutcome(1, old(inner.budget))
      ensures inner.shown == old(inner.shown) + (if err == None then [Frame(1, r, g, b)] else [])
      ensures inner.budget == (if old(inner.budget) == 0 then 0 else old(inner.budget) - 1)
    {
      err := inner.SetColors(r, g, b);
    }

    /** `flicker`: dark, then (after a wait that is not modelled) the colour it
        had before. The colour comes back unless the first transmission fails,
        which leaves the LED's fields at 0. */
    method Flicker() returns (err: Option<Error>)
      modifies inner
      ensures err == (if old(inner.budget) == 0 then Some(RmtError) else PlayOutcome(1, old(inner.budget) - 1))
      ensures err == None <==> old(inner.budget) >= 2
      ensures old(inner.budget) > 0 ==>
                inner.red == old(inner.red) && inner.green == old(inner.green) && inner.blue == old(inner.blue)
      ensures old(inner.budget) == 0 ==> inner.red == 0 && inner.green == 0 && inner.blue == 0
      ensures inner.shown == old(inner.shown)
                + (if old(inner.budget) >= 1 then [Frame(1, 0, 0, 0)] else [])
                + (if old(inner.budget) >= 2 then [Frame(1, old(inner.red), old(inner.green), old(inner.blue))] else [])
    {
      var r, g, b := inner.red, inner.green, inner.blue;
      err := inner.SetColors(0, 0, 0);
      if err.Some? {
        return;
      }
      err := inner.SetColors(r, g, b);
    }
  }
}
