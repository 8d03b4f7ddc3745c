/** Byte strings and the small text helpers shared by every component.

    The firmware works on `&[u8]` and `&str`; both are modelled as sequences of
    bytes (a Rust `&str` is a byte slice known to hold UTF-8). */
module Common {

  type byte = b: int | 0 <= b < 256

  datatype Option<+T> = None | Some(value: T)

  datatype Result<+T, +E> = Ok(value: T) | Err(error: E)

  /** Regrouping a concatenation, for proofs where the solver would look
      for it on its own at great cost. */
  lemma Associative<T>(a: seq<T>, b: seq<T>, c: seq<T>)
    ensures (a + b) + c == a + (b + c)
  {
  }

  const CR: byte := 13
  const LF: byte := 10
  const SP: byte := 32
  const COLON: byte := 58
  const ZERO: byte := 48
  const CRLF: seq<byte> := [CR, LF]

  /** The bytes of an ASCII literal (each character is taken modulo 256). */
  function Str(s: string): (r: seq<byte>)
    ensures |r| == |s|
  {
    seq(|s|, i requires 0 <= i < |s| => (s[i] as int % 256) as byte)
  }

  /** A buffer of `n` zero bytes, as `[0u8; n]`. */
  function Zeros(n: nat): (r: seq<byte>)
    ensures |r| == n && forall k :: 0 <= k < n ==> r[k] == 0
  {
    seq(n, _ => 0)
  }

  lemma StrAt(s: string, i: nat)
    requires i < |s|
    ensures Str(s)[i] == s[i] as int % 256
  {
  }

  lemma StrAppend(a: string, b: string)
    ensures Str(a + b) == Str(a) + Str(b)
  {
    assert forall i :: 0 <= i < |a + b| ==> Str(a + b)[i] == (Str(a) + Str(b))[i];
  }

  /** Printable ASCII: space to tilde. */
  predicate Printable(s: seq<byte>) {
    forall i :: 0 <= i < |s| ==> 32 <= s[i] < 127
  }

  lemma PrintableAppend(a: seq<byte>, b: seq<byte>)
    requires Printable(a) && Printable(b)
    ensures Printable(a + b)
  {
    assert forall i :: |a| <= i < |a + b| ==> (a + b)[i] == b[i - |a|];
  }

  lemma Str3(a: string, b: string, c: string)
    ensures Str(a + b + c) == Str(a) + Str(b) + Str(c)
  {
    StrAppend(a + b, c);
    StrAppend(a, b);
  }

  lemma Str5(a: string, b: string, c: string, d: string, e: string)
    ensures Str(a + b + c + d + e) == Str(a) + Str(b) + Str(c) + Str(d) + Str(e)
  {
    StrAppend(a + b + c + d, e);
    StrAppend(a + b + c, d);
    Str3(a, b, c);
  }

  /** Text of printable ASCII characters. */
  predicate PrintableText(s: string) {
    forall i :: 0 <= i < |s| ==> ' ' <= s[i] <= '~'
  }

  /** Text of printable ASCII characters other than space. */
  predicate VisibleText(s: string) {
    forall i :: 0 <= i < |s| ==> ' ' < s[i] <= '~'
  }

  lemma StrPrintable(s: string)
    requires PrintableText(s)
    ensures Printable(Str(s))
    ensures forall i :: 0 <= i < |s| ==> Str(s)[i] == s[i] as int
  {
  }

  lemma StrVisible(s: string)
    requires VisibleText(s)
    ensures Printable(Str(s)) && SP !in Str(s)
    ensures forall i :: 0 <= i < |s| ==> Str(s)[i] == s[i] as int && Str(s)[i] < 0x80 && !IsSpace(Str(s)[i])
  {
  }

  /** Concatenation of a sequence of byte strings. */
  function Concat(chunks: seq<seq<byte>>): (r: seq<byte>)
    decreases |chunks|
  {
    if chunks == [] then [] else Concat(chunks[..|chunks| - 1]) + chunks[|chunks| - 1]
  }

  lemma {:induction false} ConcatAppend(a: seq<seq<byte>>, b: seq<seq<byte>>)
    ensures Concat(a + b) == Concat(a) + Concat(b)
    decreases |b|
  {
    if b == [] {
      assert a + b == a;
    } else {
      var b' := b[..|b| - 1];
      assert (a + b)[..|a + b| - 1] == a + b';
      ConcatAppend(a, b');
    }
  }

  /** ASCII lower-casing of one byte, as `u8::to_ascii_lowercase`. */
  function Lower(b: byte): (r: byte)
    ensures 'A' as int <= b <= 'Z' as int ==> r == b + 32
    ensures !('A' as int <= b <= 'Z' as int) ==> r == b
  {
    if 65 <= b <= 90 then b + 32 else b
  }

  /** `eq_ignore_ascii_case`: same length and equal after ASCII lower-casing. */
  predicate EqIgnoreCase(a: seq<byte>, b: seq<byte>) {
    |a| == |b| && forall i :: 0 <= i < |a| ==> Lower(a[i]) == Lower(b[i])
  }

  predicate IsDigit(b: byte) {
    48 <= b <= 57
  }

  /** The ASCII characters of Unicode White_Space: horizontal tab, line
      feed, vertical tab, form feed, carriage return and space. */
  predicate IsSpace(b: byte) {
    b == SP || 9 <= b <= 13
  }

  /** The three-byte UTF-8 encodings of White_Space characters: U+1680,
      U+2000 to U+200A, U+2028, U+2029, U+202F, U+205F and U+3000. */
  predicate WideSpace(a: byte, b: byte, c: byte) {
    || (a == 0xE1 && b == 0x9A && c == 0x80)
    || (a == 0xE2 && b == 0x80 && (0x80 <= c <= 0x8A || c == 0xA8 || c == 0xA9 || c == 0xAF))
    || (a == 0xE2 && b == 0x81 && c == 0x9F)
    || (a == 0xE3 && b == 0x80 && c == 0x80)
  }

  /** The length of the White_Space character (`char::is_whitespace`) whose
      UTF-8 encoding starts at `s[i]`, or 0 when none does. The two-byte ones
      are U+0085 and U+00A0. */
  function SpaceAt(s: seq<byte>, i: nat): (r: nat)
    requires i <= |s|
    ensures i + r <= |s| && r <= 3
    ensures i < |s| && s[i] < 0x80 ==> (r > 0 <==> IsSpace(s[i]))
  {
    if i < |s| && IsSpace(s[i]) then 1
    else if i + 2 <= |s| && s[i] == 0xC2 && (s[i + 1] == 0x85 || s[i + 1] == 0xA0) then 2
    else if i + 3 <= |s| && WideSpace(s[i], s[i + 1], s[i + 2]) then 3
    else 0
  }

  /** The length of the White_Space character whose UTF-8 encoding ends just
      before `s[j]`, or 0 when none does. */
  function SpaceBefore(s: seq<byte>, j: nat): (r: nat)
    requires j <= |s|
    ensures r <= j && r <= 3
    ensures j > 0 && s[j - 1] < 0x80 ==> (r > 0 <==> IsSpace(s[j - 1]))
  {
    if j >= 1 && IsSpace(s[j - 1]) then 1
    else if j >= 2 && s[j - 2] == 0xC2 && (s[j - 1] == 0x85 || s[j - 1] == 0xA0) then 2
    else if j >= 3 && WideSpace(s[j - 3], s[j - 2], s[j - 1]) then 3
    else 0
  }

  /** The first index at or after `i` that does not start a whitespace
      character. */
  function SkipSpaces(s: seq<byte>, i: nat): (r: nat)
    requires i <= |s|
    ensures i <= r <= |s| && SpaceAt(s, r) == 0
    ensures r == i <==> SpaceAt(s, i) == 0
    decreases |s| - i
  {
    var n := SpaceAt(s, i);
    if n > 0 then SkipSpaces(s, i + n) else i
  }

  /** The index just past the last character before `j` that is not
      whitespace. */
  function SkipSpacesBack(s: seq<byte>, j: nat): (r: nat)
    requires j <= |s|
    ensures r <= j && SpaceBefore(s, r) == 0
    ensures r == j <==> SpaceBefore(s, j) == 0
  {
    var n := SpaceBefore(s, j);
    if n > 0 then SkipSpacesBack(s, j - n) else j
  }

  function TrimStart(s: seq<byte>): (r: seq<byte>)
    ensures |r| <= |s| && r == s[|s| - |r|..]
    ensures SpaceAt(s, |s| - |r|) == 0
    ensures r == s <==> SpaceAt(s, 0) == 0
  {
    s[SkipSpaces(s, 0)..]
  }

  function TrimEnd(s: seq<byte>): (r: seq<byte>)
    ensures |r| <= |s| && r == s[..|r|]
    ensures SpaceBefore(s, |r|) == 0
    ensures r == s <==> SpaceBefore(s, |s|) == 0
  {
    s[..SkipSpacesBack(s, |s|)]
  }

  /** `str::trim`: the text without the White_Space characters at either
      end. */
  function Trim(s: seq<byte>): seq<byte> {
    TrimEnd(TrimStart(s))
  }

  /** Text of visible ASCII characters is its own trim. */
  lemma TrimNoSpace(s: seq<byte>)
    requires forall i :: 0 <= i < |s| ==> s[i] < 0x80 && !IsSpace(s[i])
    ensures Trim(s) == s
  {
    if s != [] {
      assert SpaceAt(s, 0) == 0;
      assert SpaceBefore(s, |s|) == 0;
    }
  }

  /** A trailing no-break space (U+00A0) is trimmed like an ASCII space. */
  lemma TrimNoBreakSpace(s: seq<byte>)
    requires forall i :: 0 <= i < |s| ==> s[i] < 0x80 && !IsSpace(s[i])
    ensures Trim(s + [0xC2, 0xA0]) == s
  {
    var t := s + [0xC2, 0xA0];
    if s == [] {
      assert SkipSpaces(t, 0) == 2 by { assert SpaceAt(t, 0) == 2; }
    } else {
      assert SpaceAt(t, 0) == 0 by { assert t[0] == s[0]; }
      assert SpaceBefore(t, |t|) == 2;
      assert SpaceBefore(t, |s|) == 0 by { assert t[|s| - 1] == s[|s| - 1]; }
      assert t[..|s|] == s;
    }
  }

  /** The index of the first `b` at or after `i`. */
  function IndexFrom(s: seq<byte>, b: byte, i: nat): (r: Option<nat>)
    requires i <= |s|
    ensures r.Some? ==> i <= r.value < |s| && s[r.value] == b
                        && forall k :: i <= k < r.value ==> s[k] != b
    ensures r.None? ==> forall k :: i <= k < |s| ==> s[k] != b
    decreases |s| - i
  {
    if i == |s| then None
    else if s[i] == b then Some(i)
    else IndexFrom(s, b, i + 1)
  }

  /** The index of the first occurrence of `b` in `s`. */
  function IndexOf(s: seq<byte>, b: byte): (r: Option<nat>)
    ensures r.Some? ==> r.value < |s| && s[r.value] == b && b !in s[..r.value]
    ensures r.None? ==> b !in s
  {
    IndexFrom(s, b, 0)
  }

  /** `splitn(2, sep)`: the part before the first `sep` and, when `sep` occurs,
      the part after it. */
  function SplitOnce(s: seq<byte>, sep: byte): (r: (seq<byte>, Option<seq<byte>>))
    ensures sep !in r.0
    ensures r.1.None? ==> r.0 == s
    ensures r.1.Some? ==> s == r.0 + [sep] + r.1.value
  {
    match IndexOf(s, sep)
    case None => (s, None)
    case Some(i) => assert s == s[..i] + [sep] + s[i + 1..]; (s[..i], Some(s[i + 1..]))
  }

  // ---------------------------------------------------------------------------
  // UTF-8 well-formedness, as `str::from_utf8` checks it (Unicode Table 3-7:
  // no overlong forms, no surrogates, nothing above U+10FFFF).

  predicate Cont(b: byte) {
    0x80 <= b <= 0xBF
  }

  /** Length of the well-formed UTF-8 sequence that starts at `s[i]`, or 0 if
      none does. */
  function CharLen(s: seq<byte>, i: nat): (r: nat)
    requires i <= |s|
    ensures i + r <= |s|
  {
    var n := |s| - i;
    if n == 0 then 0
    else if s[i] < 0x80 then 1
    else if 0xC2 <= s[i] <= 0xDF then
      (if n >= 2 && Cont(s[i + 1]) then 2 else 0)
    else if 0xE0 <= s[i] <= 0xEF then
      var lo := if s[i] == 0xE0 then 0xA0 else 0x80;
      var hi := if s[i] == 0xED then 0x9F else 0xBF;
      (if n >= 3 && lo <= s[i + 1] <= hi && Cont(s[i + 2]) then 3 else 0)
    else if 0xF0 <= s[i] <= 0xF4 then
      var lo := if s[i] == 0xF0 then 0x90 else 0x80;
      var hi := if s[i] == 0xF4 then 0x8F else 0xBF;
      (if n >= 4 && lo <= s[i + 1] <= hi && Cont(s[i + 2]) && Cont(s[i + 3]) then 4 else 0)
    else 0
  }

  /** `s[i..]` is a sequence of well-formed UTF-8 characters. */
  predicate ValidUtf8From(s: seq<byte>, i: nat)
    requires i <= |s|
    decreases |s| - i
  {
    i == |s| || (var n := CharLen(s, i); n > 0 && ValidUtf8From(s, i + n))
  }

  predicate ValidUtf8(s: seq<byte>) {
    ValidUtf8From(s, 0)
  }

  /** Appending bytes does not change a character that is already complete. */
  lemma CharLenPrefix(a: seq<byte>, b: seq<byte>, i: nat)
    requires i <= |a| && CharLen(a, i) > 0
    ensures CharLen(a + b, i) == CharLen(a, i)
  {
    var n := CharLen(a, i);
    assert (a + b)[i] == a[i];
    if n >= 2 { assert (a + b)[i + 1] == a[i + 1]; }
    if n >= 3 { assert (a + b)[i + 2] == a[i + 2]; }
    if n >= 4 { assert (a + b)[i + 3] == a[i + 3]; }
  }

  /** Bytes in front do not change how the rest decodes. */
  lemma {:induction false} ValidUtf8Shift(a: seq<byte>, b: seq<byte>, j: nat)
    requires j <= |b| && ValidUtf8From(b, j)
    ensures ValidUtf8From(a + b, |a| + j)
    decreases |b| - j
  {
    if j < |b| {
      var n := CharLen(b, j);
      var ab := a + b;
      assert CharLen(ab, |a| + j) == n by {
        assert ab[|a| + j] == b[j];
        if n >= 2 { assert ab[|a| + j + 1] == b[j + 1]; }
        if n >= 3 { assert ab[|a| + j + 2] == b[j + 2]; }
        if n >= 4 { assert ab[|a| + j + 3] == b[j + 3]; }
      }
      ValidUtf8Shift(a, b, j + n);
    }
  }

  lemma {:induction false} ValidUtf8AppendFrom(a: seq<byte>, b: seq<byte>, i: nat)
    requires i <= |a| && ValidUtf8From(a, i) && ValidUtf8(b)
    ensures ValidUtf8From(a + b, i)
    decreases |a| - i
  {
    if i == |a| {
      ValidUtf8Shift(a, b, 0);
    } else {
      var n := CharLen(a, i);
      CharLenPrefix(a, b, i);
      ValidUtf8AppendFrom(a, b, i + n);
    }
  }

  lemma ValidUtf8Append(a: seq<byte>, b: seq<byte>)
    requires ValidUtf8(a) && ValidUtf8(b)
    ensures ValidUtf8(a + b)
  {
    ValidUtf8AppendFrom(a, b, 0);
  }

  predicate IsAscii(s: seq<byte>) {
    forall i :: 0 <= i < |s| ==> s[i] < 0x80
  }

  lemma {:induction false} AsciiIsUtf8From(s: seq<byte>, i: nat)
    requires i <= |s| && IsAscii(s)
    ensures ValidUtf8From(s, i)
    decreases |s| - i
  {
    if i < |s| {
      assert CharLen(s, i) == 1;
      AsciiIsUtf8From(s, i + 1);
    }
  }

  lemma AsciiIsUtf8(s: seq<byte>)
    requires IsAscii(s)
    ensures ValidUtf8(s)
  {
    AsciiIsUtf8From(s, 0);
  }
}
