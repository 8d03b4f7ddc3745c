/** Decimal text to integer (`atoi`) and integer to decimal text (`AsciiInt`),
    http/src/lib.rs:234-297. The doorctrl HTTP stack uses the same two helpers
    from its own `ascii` module, which is not part of this model.

    `atoi` accumulates in a `u32` with `+`, `*` and `pow`; in a release build
    these wrap, so the result is the decimal value modulo 2^32. */
module Ascii {
  import opened Common

  const U32: nat := 0x1_0000_0000
  const U64: nat := 0x1_0000_0000_0000_0000

  function Pow10(e: nat): (r: nat)
    ensures r >= 1
  {
    if e == 0 then 1 else 10 * Pow10(e - 1)
  }

  lemma {:induction false} Pow10Add(a: nat, b: nat)
    ensures Pow10(a + b) == Pow10(a) * Pow10(b)
    decreases a
  {
    if a > 0 {
      Pow10Add(a - 1, b);
    }
  }

  lemma Pow10Twenty()
    ensures Pow10(20) == 100_000_000_000_000_000_000
  {
    assert Pow10(5) == 100_000;
    Pow10Add(5, 5);
    Pow10Add(10, 10);
  }

  predicate AllDigits(s: seq<byte>) {
    forall i :: 0 <= i < |s| ==> IsDigit(s[i])
  }

  /** The number a string of decimal digits denotes. */
  function Value(s: seq<byte>): nat
    requires AllDigits(s)
    decreases |s|
  {
    if s == [] then 0 else Value(s[..|s| - 1]) * 10 + (s[|s| - 1] - 48)
  }

  /** What `atoi` returns: nothing when a byte is not a digit (or the length does
      not fit a `u32`), otherwise the value wrapped to 32 bits. The empty string
      gives 0. */
  function AtoiSpec(s: seq<byte>): Option<nat> {
    if |s| >= U32 || !AllDigits(s) then None else Some(Value(s) % U32)
  }

  lemma ModMultiplePlus(k: int, r: int)
    ensures (k * U32 + r) % U32 == r % U32
  {
  }

  /** One step of the wrapping accumulation. */
  lemma WrapStep(v: nat, d: nat, p: nat)
    ensures (v * (10 * p) % U32 + d * (p % U32) % U32) % U32 == ((v * 10 + d) * p) % U32
  {
    var a := v * (10 * p);
    var b := d * (p % U32);
    assert a == (a / U32) * U32 + a % U32;
    assert b == (b / U32) * U32 + b % U32;
    assert p == (p / U32) * U32 + p % U32;
    assert d * p == d * (p / U32) * U32 + b by {
      assert d * p == d * ((p / U32) * U32 + p % U32);
    }
    assert (v * 10 + d) * p == a + d * p;
    calc {
      ((v * 10 + d) * p) % U32;
      (a + d * (p / U32) * U32 + b) % U32;
      { ModMultiplePlus(a / U32 + d * (p / U32) + b / U32, a % U32 + b % U32); }
      (a % U32 + b % U32) % U32;
    }
  }

  /** `atoi`. */
  method Atoi(data: seq<byte>) returns (r: Option<nat>)
    ensures r == AtoiSpec(data)
    ensures r.Some? ==> r.value < U32
  {
    var val: nat := 0;
    var len := |data|;
    if len >= U32 {
      return None;
    }
    for i := 0 to len
      invariant AllDigits(data[..i])
      invariant val == Value(data[..i]) * Pow10(len - i) % U32
    {
      if data[i] < 48 || data[i] > 57 {
        return None;
      }
      var exp := len - (i + 1);
      var digitVal := data[i] - 48;
      assert data[..i + 1][..i] == data[..i];
      WrapStep(Value(data[..i]), digitVal, Pow10(exp));
      val := (val + digitVal * (Pow10(exp) % U32) % U32) % U32;
    }
    assert data[..len] == data;
    return Some(val);
  }

  /** Leading zeros do not change the value ("0123" is 123). */
  lemma {:induction false} LeadingZero(s: seq<byte>)
    requires AllDigits(s)
    ensures AllDigits([ZERO] + s) && Value([ZERO] + s) == Value(s)
    decreases |s|
  {
    if s != [] {
      var t := [ZERO] + s;
      assert t[..|t| - 1] == [ZERO] + s[..|s| - 1];
      LeadingZero(s[..|s| - 1]);
    }
  }

  /** The shortest decimal spelling of `n` ("0" for zero). */
  function Digits(n: nat): (r: seq<byte>)
    ensures |r| >= 1 && AllDigits(r)
    ensures n > 0 ==> r[0] != ZERO
    decreases n
  {
    if n < 10 then [(48 + n) as byte] else Digits(n / 10) + [(48 + n % 10) as byte]
  }

  lemma {:induction false} DigitsValue(n: nat)
    ensures Value(Digits(n)) == n
    decreases n
  {
    if n >= 10 {
      var d := Digits(n);
      assert d[..|d| - 1] == Digits(n / 10);
      DigitsValue(n / 10);
    }
  }

  lemma {:induction false} DigitsLength(n: nat, k: nat)
    requires 1 <= k && n < Pow10(k)
    ensures |Digits(n)| <= k
    decreases k
  {
    if n >= 10 {
      DigitsLength(n / 10, k - 1);
    }
  }

  /** `atoi` reads back what `AsciiInt` writes, for every value a `u32` holds. */
  lemma AtoiDigits(n: nat)
    requires n < U32
    ensures AtoiSpec(Digits(n)) == Some(n)
  {
    DigitsValue(n);
    DigitsFit(n);
  }

  /** Distinct numbers have distinct spellings. */
  lemma DigitsInjective(m: nat, n: nat)
    requires Digits(m) == Digits(n)
    ensures m == n
  {
    DigitsValue(m);
    DigitsValue(n);
  }

  function Spaces(k: nat): (r: seq<byte>)
    ensures |r| == k && forall i :: 0 <= i < k ==> r[i] == SP
  {
    seq(k, _ => SP)
  }

  /** The last digit comes off with `% 10`, the rest with `/ 10`. */
  lemma DigitsStep(q: nat)
    ensures q < 10 ==> Digits(q) == [(48 + q % 10) as byte]
    ensures q >= 10 ==> Digits(q) == Digits(q / 10) + [(48 + q % 10) as byte]
  {
  }

  /** A 20-byte buffer of spaces followed by `d`. */
  lemma Padded(a: seq<byte>, k: nat, d: seq<byte>)
    requires k <= |a| == 20 && a[k..] == d
    requires forall j :: 0 <= j < k ==> a[j] == SP
    ensures a == Spaces(k) + d
  {
    assert a == a[..k] + a[k..];
  }

  /** Every `u64` has at most 20 decimal digits. */
  lemma DigitsFit(n: nat)
    requires n < U64
    ensures |Digits(n)| <= 20
  {
    Pow10Twenty();
    DigitsLength(n, 20);
  }

  /** One round of `AsciiInt::from`: writing the last digit of `q` just in
      front of the digits already written leaves the digits of `q / 10` to do. */
  lemma PutDigit(value: nat, q: nat, round: nat, before: seq<byte>, after: seq<byte>)
    requires round < 20 == |before| && Digits(value) == Digits(q) + before[20 - round..]
    requires after == before[19 - round := (48 + q % 10) as byte]
    ensures q < 10 ==> Digits(value) == after[19 - round..]
    ensures q >= 10 ==> Digits(value) == Digits(q / 10) + after[19 - round..]
    ensures forall j :: 0 <= j < 19 - round ==> after[j] == before[j]
  {
    DigitsStep(q);
    assert after[19 - round..] == [(48 + q % 10) as byte] + before[20 - round..];
  }

  /** `AsciiInt::from`: the digits of `value` right-aligned in 20 bytes of spaces. */
  method AsciiIntFrom(value: nat) returns (r: seq<byte>)
    requires value < U64
    ensures |Digits(value)| <= 20
    ensures r == Spaces(20 - |Digits(value)|) + Digits(value)
  {
    DigitsFit(value);
    var a := new byte[20](_ => SP);
    var round := 0;
    var q := value;
    while true
      invariant round + |Digits(q)| == |Digits(value)|
      invariant Digits(value) == Digits(q) + a[20 - round..]
      invariant forall j :: 0 <= j < 20 - round ==> a[j] == SP
      decreases q
    {
      var rem := q % 10;
      ghost var before := a[..];
      PutDigit(value, q, round, before, before[19 - round := (rem + 48) as byte]);
      q := q / 10;
      a[19 - round] := (rem + 48) as byte;
      if q == 0 {
        break;
      }
      round := round + 1;
    }
    Padded(a[..], 19 - round, Digits(value));
    r := a[..];
  }

  /** `AsciiInt::as_str`: the padded text with the spaces trimmed. */
  function AsStr(padded: seq<byte>): seq<byte> {
    Trim(padded)
  }

  lemma {:induction false} SkipPadding(k: nat, s: seq<byte>, i: nat)
    requires s != [] && s[0] < 0x80 && !IsSpace(s[0]) && i <= k
    ensures SkipSpaces(Spaces(k) + s, i) == k
    decreases k - i
  {
    var t := Spaces(k) + s;
    if i < k {
      assert t[i] == SP;
      SkipPadding(k, s, i + 1);
    } else {
      assert t[k] == s[0];
    }
  }

  lemma TrimSpaces(k: nat, s: seq<byte>)
    requires s != [] && s[0] < 0x80 && !IsSpace(s[0])
    ensures TrimStart(Spaces(k) + s) == s
  {
    SkipPadding(k, s, 0);
    assert (Spaces(k) + s)[k..] == s;
  }

  /** `as_str(from(n))` is exactly the decimal spelling of n. */
  lemma AsStrDigits(k: nat, n: nat)
    ensures AsStr(Spaces(k) + Digits(n)) == Digits(n)
  {
    TrimSpaces(k, Digits(n));
    TrimNoSpace(Digits(n));
  }
}
