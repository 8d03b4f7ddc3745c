/** Header classification and header emission of the standalone `http`
    crate's generic stack (http/src/header.rs). */
module HttpCrateHeader {
  import opened Common
  import opened Ascii
  import opened Io
  import opened Http

  const UPGRADE: seq<byte> := Str("Upgrade")
  const CONTENT_LENGTH: seq<byte> := Str("Content-Length")
  const SEC_WEBSOCKET_KEY: seq<byte> := Str("Sec-WebSocket-Key")

  /** The value of a Sec-WebSocket-Accept header: 28 Base64 characters. */
  type AcceptKey = s: seq<byte> | |s| == 28 witness Zeros(28)

  datatype HttpHeader =
    | ContentType(value: seq<byte>)
    | ContentLength(length: nat)
    | Server(value: seq<byte>)
    | Upgrade(value: seq<byte>)
    | SecWebSocketKey(value: seq<byte>)
    | SecWebSocketAccept(key: AcceptKey)
    | Other(name: seq<byte>, value: seq<byte>)

  /** `HttpHeader::try_from((name, value))`: Content-Length, Upgrade and
      Sec-WebSocket-Key by name ignoring ASCII case, everything else kept as
      `Other`; only a Content-Length that is not a number fails. */
  function TryFrom(name: seq<byte>, value: seq<byte>): (r: Result<HttpHeader, Option<string>>)
    ensures r.Err? <==> EqIgnoreCase(name, CONTENT_LENGTH) && AtoiSpec(value).None?
    ensures r.Err? ==> r.error == Some("invalid content-length")
    ensures r.Ok? && r.value.ContentLength? ==> AtoiSpec(value) == Some(r.value.length)
    ensures r.Ok? ==> (r.value == Other(name, value) <==>
              !EqIgnoreCase(name, CONTENT_LENGTH) && !EqIgnoreCase(name, UPGRADE) && !EqIgnoreCase(name, SEC_WEBSOCKET_KEY))
    ensures r.Ok? ==> r.value.Upgrade? || r.value.SecWebSocketKey? || r.value.ContentLength? || r.value.Other?
  {
    if EqIgnoreCase(name, CONTENT_LENGTH) then
      match AtoiSpec(value)
      case None => Err(Some("invalid content-length"))
      case Some(n) => Ok(ContentLength(n))
    else if EqIgnoreCase(name, UPGRADE) then Ok(Upgrade(value))
    else if EqIgnoreCase(name, SEC_WEBSOCKET_KEY) then Ok(SecWebSocketKey(value))
    else Ok(Other(name, value))
  }

  /** The three names differ ignoring case: each is classified as its own
      kind, keeping the value. */
  lemma TryFromKinds(name: seq<byte>, value: seq<byte>)
    ensures EqIgnoreCase(name, UPGRADE) ==> TryFrom(name, value) == Ok(Upgrade(value))
    ensures EqIgnoreCase(name, SEC_WEBSOCKET_KEY) ==> TryFrom(name, value) == Ok(SecWebSocketKey(value))
  {
    assert |UPGRADE| == 7 && |CONTENT_LENGTH| == 14 && |SEC_WEBSOCKET_KEY| == 17;
  }

  /** The name a response header is written under, and the text after it. */
  function Prefix(h: HttpHeader): seq<byte>
    requires !h.Upgrade? && !h.SecWebSocketKey?
  {
    match h
    case ContentType(_) => Str("Content-Type: ")
    case ContentLength(_) => Str("Content-Length: ")
    case Server(_) => Str("Server: ")
    case SecWebSocketAccept(_) => Str("Sec-WebSocket-Accept: ")
    case Other(k, _) => k + Str(": ")
  }

  function Text(h: HttpHeader): seq<byte>
    requires !h.Upgrade? && !h.SecWebSocketKey?
  {
    match h
    case ContentType(s) => s
    case ContentLength(n) => Digits(n)
    case Server(s) => s
    case SecWebSocketAccept(k) => k
    case Other(_, v) => v
  }

  /** The writes `write` issues for the name part: one for a fixed name, two
      (the key, then ": ") for `Other`. */
  function NameChunks(h: HttpHeader): seq<seq<byte>>
    requires !h.Upgrade? && !h.SecWebSocketKey?
  {
    match h
    case Other(k, _) => [k, Str(": ")]
    case ContentType(_) => [Prefix(h)]
    case ContentLength(_) => [Prefix(h)]
    case Server(_) => [Prefix(h)]
    case SecWebSocketAccept(_) => [Prefix(h)]
  }

  /** Every write `write` issues, in order; a zero Content-Length and the two
      request-only headers issue none. */
  function Chunks(h: HttpHeader): seq<seq<byte>> {
    if h.Upgrade? || h.SecWebSocketKey? || h == ContentLength(0) then []
    else NameChunks(h) + [Text(h), CRLF]
  }

  const RESET: HttpError := NetworkError("connnection reset by peer")

  /** `HttpWrite::write` for a header. Upgrade and Sec-WebSocket-Key are
      request headers and are refused with nothing written; a zero
      Content-Length writes nothing. Otherwise the name writes are issued,
      and if they all succeed the value and CRLF are both issued; any failed
      write is reported as a reset connection. */
  method Write(h: HttpHeader, w: Client) returns (r: Result<(), HttpError>)
    requires h.ContentLength? ==> h.length < U64
    modifies w
    ensures w.out == old(w.out) + Sent(Chunks(h), old(w.budget))
    ensures w.budget == Left(old(w.budget), |Chunks(h)|) && w.input == old(w.input)
    ensures h.Upgrade? || h.SecWebSocketKey? ==> r == Err(ProtocolError("invalid response header"))
    ensures !h.Upgrade? && !h.SecWebSocketKey? ==> (r.Ok? <==> old(w.budget) >= |Chunks(h)|)
    ensures !h.Upgrade? && !h.SecWebSocketKey? && r.Err? ==> r.error == RESET
  {
    if h.Upgrade? || h.SecWebSocketKey? {
      SentNothing(w.budget);
      return Err(ProtocolError("invalid response header"));
    }
    if h == ContentLength(0) {
      SentNothing(w.budget);
      return Ok(());
    }
    var ok := WriteLine(h, w);
    r := if ok then Ok(()) else Err(RESET);
  }

  /** The writes of a response header that writes something; a failed name
      write stops before the value. */
  method WriteLine(h: HttpHeader, w: Client) returns (ok: bool)
    requires !h.Upgrade? && !h.SecWebSocketKey? && h != ContentLength(0)
    requires h.ContentLength? ==> h.length < U64
    modifies w
    ensures w.out == old(w.out) + Sent(Chunks(h), old(w.budget))
    ensures w.budget == Left(old(w.budget), |Chunks(h)|) && w.input == old(w.input)
    ensures ok <==> old(w.budget) >= |Chunks(h)|
  {
    ghost var b0 := w.budget;
    ValueSent(h, b0);
    ok := WriteName(h, w);
    if !ok {
      NameFails(h, b0);
      return;
    }
    var val := Value(h);
    var ok1 := w.WriteAll(val);
    var ok2 := w.WriteAll(CRLF);
    ok := ok1 && ok2;
  }

  /** The name writes: the fixed "Name: " text, or the key and then ": ",
      both issued whatever the first returned. */
  method WriteName(h: HttpHeader, w: Client) returns (ok: bool)
    requires !h.Upgrade? && !h.SecWebSocketKey?
    modifies w
    ensures w.out == old(w.out) + Sent(NameChunks(h), old(w.budget))
    ensures w.budget == Left(old(w.budget), |NameChunks(h)|) && w.input == old(w.input)
    ensures ok <==> old(w.budget) >= |NameChunks(h)|
  {
    if h.Other? {
      ghost var b0 := w.budget;
      var ok1 := w.WriteAll(h.name);
      var ok2 := w.WriteAll(Str(": "));
      SentFront(h.name, [Str(": ")], b0);
      assert NameChunks(h) == [h.name] + [Str(": ")];
      ok := ok1 && ok2;
    } else {
      assert NameChunks(h) == [Prefix(h)];
      ok := w.WriteAll(Prefix(h));
    }
  }

  /** The value text: `AsciiInt::from(n).as_str()` for a length, otherwise
      the header's own text. */
  method Value(h: HttpHeader) returns (val: seq<byte>)
    requires !h.Upgrade? && !h.SecWebSocketKey?
    requires h.ContentLength? ==> h.length < U64
    ensures val == Text(h)
  {
    if h.ContentLength? {
      var padded := AsciiIntFrom(h.length);
      AsStrDigits(20 - |Digits(h.length)|, h.length);
      val := AsStr(padded);
    } else {
      val := Text(h);
    }
  }

  /** The writes divide into the name writes and the value writes. */
  lemma ValueSent(h: HttpHeader, budget: nat)
    requires !h.Upgrade? && !h.SecWebSocketKey? && h != ContentLength(0)
    ensures Sent(Chunks(h), budget)
            == Sent(NameChunks(h), budget) + Sent([Text(h)], Left(budget, |NameChunks(h)|))
               + Sent([CRLF], Left(Left(budget, |NameChunks(h)|), 1))
    ensures Left(Left(Left(budget, |NameChunks(h)|), 1), 1) == Left(budget, |Chunks(h)|)
    ensures budget >= |Chunks(h)| <==> budget >= |NameChunks(h)| && Left(budget, |NameChunks(h)|) >= 2
  {
    var n := NameChunks(h);
    assert Chunks(h) == n + [Text(h), CRLF];
    SentAppend(n, [Text(h), CRLF], budget);
    SentFront(Text(h), [CRLF], Left(budget, |n|));
    assert [Text(h)] + [CRLF] == [Text(h), CRLF];
  }

  /** When a name write fails the budget is spent: nothing more is sent. */
  lemma NameFails(h: HttpHeader, budget: nat)
    requires !h.Upgrade? && !h.SecWebSocketKey? && h != ContentLength(0)
    requires budget < |NameChunks(h)|
    ensures Sent(Chunks(h), budget) == Sent(NameChunks(h), budget)
    ensures Left(budget, |NameChunks(h)|) == 0 == Left(budget, |Chunks(h)|)
  {
    ValueSent(h, budget);
    SentIsPrefix([Text(h)], 0);
    SentIsPrefix([CRLF], 0);
  }

  /** What a header puts on the wire when every write succeeds:
      "Name: value" and CRLF. */
  lemma Line(h: HttpHeader)
    requires !h.Upgrade? && !h.SecWebSocketKey? && h != ContentLength(0)
    ensures Concat(Chunks(h)) == Prefix(h) + Text(h) + CRLF
  {
    var t := Text(h);
    if h.Other? {
      var sep := Str(": ");
      assert Chunks(h) == [h.name, sep, t, CRLF];
      ConcatFour(h.name, sep, t, CRLF);
    } else {
      assert Chunks(h) == [Prefix(h), t, CRLF];
      ConcatThree(Prefix(h), t, CRLF);
    }
  }

  lemma ConcatThree(a: seq<byte>, b: seq<byte>, c: seq<byte>)
    ensures Concat([a, b, c]) == a + b + c
  {
    var none: seq<seq<byte>> := [];
    assert [a][..0] == none;
    assert Concat([a]) == a;
    assert [a, b][..1] == [a];
    assert Concat([a, b]) == a + b;
    assert [a, b, c][..2] == [a, b];
  }

  lemma ConcatFour(a: seq<byte>, b: seq<byte>, c: seq<byte>, d: seq<byte>)
    ensures Concat([a, b, c, d]) == a + b + c + d
  {
    assert [a, b, c, d][..3] == [a, b, c];
    ConcatThree(a, b, c);
  }

  /** A Content-Length or an `Other` header that is written is classified back
      as the same header. */
  lemma WrittenReadBack(h: HttpHeader)
    requires h.ContentLength? ==> 0 < h.length < U32
    requires h.Other? ==>
               !EqIgnoreCase(h.name, CONTENT_LENGTH) && !EqIgnoreCase(h.name, UPGRADE)
               && !EqIgnoreCase(h.name, SEC_WEBSOCKET_KEY)
    ensures h.ContentLength? ==> TryFrom(CONTENT_LENGTH, Text(h)) == Ok(h)
    ensures h.Other? ==> TryFrom(h.name, Text(h)) == Ok(h)
  {
    if h.ContentLength? {
      AtoiDigits(h.length);
    }
  }
}
