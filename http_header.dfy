/** Request header classification and response header emission for the doorctrl
    HTTP stack (doorctrl/src/http/header.rs). */
module HttpHeader {
  import opened Common
  import opened Ascii
  import opened Io
  import opened Http

  /** The request headers that carry their value as text, in the order the
      classifier tries them. */
  datatype ReqField =
    | Host | UserAgent | Upgrade | SecWebSocketKey | Accept | AcceptLanguage
    | AcceptEncoding | Referer | Connection | UpgradeInsecureRequests
    | IfModifiedSince | IfNoneMatch | CacheControl | ContentRange | ContentType
    | ContentEncoding | ContentLocation | ContentLanguage | ETag

  datatype RequestHeader =
    | Req(field: ReqField, value: seq<byte>)
    | ContentLength(length: nat)
    | Other(name: seq<byte>, value: seq<byte>)

  function ReqName(f: ReqField): seq<byte> {
    match f
    case Host => Str("Host")
    case UserAgent => Str("User-Agent")
    case Upgrade => Str("Upgrade")
    case SecWebSocketKey => Str("Sec-WebSocket-Key")
    case Accept => Str("Accept")
    case AcceptLanguage => Str("Accept-Language")
    case AcceptEncoding => Str("Accept-Encoding")
    case Referer => Str("Referer")
    case Connection => Str("Connection")
    case UpgradeInsecureRequests => Str("Upgrade-Insecure-Requests")
    case IfModifiedSince => Str("If-Modified-Since")
    case IfNoneMatch => Str("If-None-Match")
    case CacheControl => Str("Cache-Control")
    case ContentRange => Str("Content-Range")
    case ContentType => Str("Content-Type")
    case ContentEncoding => Str("Content-Encoding")
    case ContentLocation => Str("Content-Location")
    case ContentLanguage => Str("Content-Language")
    case ETag => Str("ETag")
  }

  const CONTENT_LENGTH: seq<byte> := Str("Content-Length")

  /** The order of the classifier's guards. */
  const ORDER: seq<ReqField> := [
    Host, UserAgent, Upgrade, SecWebSocketKey, Accept, AcceptLanguage,
    AcceptEncoding, Referer, Connection, UpgradeInsecureRequests,
    IfModifiedSince, IfNoneMatch, CacheControl, ContentRange, ContentType,
    ContentEncoding, ContentLocation, ContentLanguage, ETag]

  /** The first field from position `i` of ORDER whose name matches `name`
      ignoring ASCII case. */
  function FirstField(name: seq<byte>, i: nat): (r: Option<ReqField>)
    requires i <= |ORDER|
    ensures r.Some? ==> EqIgnoreCase(name, ReqName(r.value))
    ensures r.None? ==> forall j :: i <= j < |ORDER| ==> !EqIgnoreCase(name, ReqName(ORDER[j]))
    decreases |ORDER| - i
  {
    if i == |ORDER| then None
    else if EqIgnoreCase(name, ReqName(ORDER[i])) then Some(ORDER[i])
    else FirstField(name, i + 1)
  }

  /** `RequestHeader::try_from((name, value))`. The error is `Option<&str>`;
      this conversion only ever produces `Some`. */
  function Classify(name: seq<byte>, value: seq<byte>): (r: Result<RequestHeader, Option<string>>)
    ensures r != Err(None)
    ensures r.Err? ==>
              EqIgnoreCase(name, CONTENT_LENGTH) && AtoiSpec(value).None?
              && r.error == Some("invalid content-length")
    ensures r.Ok? && r.value.Other? ==>
              r.value == Other(name, value)
              && !EqIgnoreCase(name, CONTENT_LENGTH)
              && forall f :: !EqIgnoreCase(name, ReqName(f))
  {
    match FirstField(name, 0)
    case Some(f) => Ok(Req(f, value))
    case None =>
      AllFieldsListed(name);
      if EqIgnoreCase(name, CONTENT_LENGTH) then
        match AtoiSpec(value)
        case None => Err(Some("invalid content-length"))
        case Some(n) => Ok(ContentLength(n))
      else Ok(Other(name, value))
  }

  lemma AllFieldsListed(name: seq<byte>)
    requires forall j :: 0 <= j < |ORDER| ==> !EqIgnoreCase(name, ReqName(ORDER[j]))
    ensures forall f :: !EqIgnoreCase(name, ReqName(f))
  {
    forall f: ReqField ensures !EqIgnoreCase(name, ReqName(f)) {
      assert ORDER[Position(f)] == f;
    }
  }

  /** Where a field stands in ORDER. */
  function Position(f: ReqField): (i: nat)
    ensures i < |ORDER| && ORDER[i] == f
  {
    match f
    case Host => 0
    case UserAgent => 1
    case Upgrade => 2
    case SecWebSocketKey => 3
    case Accept => 4
    case AcceptLanguage => 5
    case AcceptEncoding => 6
    case Referer => 7
    case Connection => 8
    case UpgradeInsecureRequests => 9
    case IfModifiedSince => 10
    case IfNoneMatch => 11
    case CacheControl => 12
    case ContentRange => 13
    case ContentType => 14
    case ContentEncoding => 15
    case ContentLocation => 16
    case ContentLanguage => 17
    case ETag => 18
  }

  /** Lower-case equality is an equivalence, so a name matches at most one of
      a set of pairwise different names. */
  lemma EqIgnoreCaseTrans(a: seq<byte>, b: seq<byte>, c: seq<byte>)
    requires EqIgnoreCase(a, b) && EqIgnoreCase(b, c)
    ensures EqIgnoreCase(a, c)
  {
  }

  lemma EqIgnoreCaseSym(a: seq<byte>, b: seq<byte>)
    requires EqIgnoreCase(a, b)
    ensures EqIgnoreCase(b, a)
  {
  }

  /** No two field names, nor Content-Length, are equal ignoring case. */
  lemma NamesDistinct(f: ReqField, g: ReqField)
    requires f != g
    ensures !EqIgnoreCase(ReqName(f), ReqName(g))
    ensures !EqIgnoreCase(ReqName(f), CONTENT_LENGTH)
  {
    KeysDistinct(f, g);
    if EqIgnoreCase(ReqName(f), ReqName(g)) {
      KeyRespects(ReqName(f), ReqName(g));
    }
    if EqIgnoreCase(ReqName(f), CONTENT_LENGTH) {
      KeyRespects(ReqName(f), CONTENT_LENGTH);
    }
  }

  /** A number built from the length and the lower-cased last letter: equal
      names ignoring case have equal codes, and the field names all have
      different codes. */
  function Code(s: seq<byte>): int {
    if s == [] then 0 else |s| * 1000 + Lower(s[|s| - 1])
  }

  lemma KeyRespects(a: seq<byte>, b: seq<byte>)
    requires EqIgnoreCase(a, b)
    ensures Code(a) == Code(b)
  {
  }

  function FieldCode(f: ReqField): int {
    match f
    case Host => 4116
    case UserAgent => 10116
    case Upgrade => 7101
    case SecWebSocketKey => 17121
    case Accept => 6116
    case AcceptLanguage => 15101
    case AcceptEncoding => 15103
    case Referer => 7114
    case Connection => 10110
    case UpgradeInsecureRequests => 25115
    case IfModifiedSince => 17101
    case IfNoneMatch => 13104
    case CacheControl => 13108
    case ContentRange => 13101
    case ContentType => 12101
    case ContentEncoding => 16103
    case ContentLocation => 16110
    case ContentLanguage => 16101
    case ETag => 4103
  }

  function FieldOfCode(c: int): Option<ReqField> {
    if false then None
    else if c == 4116 then Some(Host)
    else if c == 10116 then Some(UserAgent)
    else if c == 7101 then Some(Upgrade)
    else if c == 17121 then Some(SecWebSocketKey)
    else if c == 6116 then Some(Accept)
    else if c == 15101 then Some(AcceptLanguage)
    else if c == 15103 then Some(AcceptEncoding)
    else if c == 7114 then Some(Referer)
    else if c == 10110 then Some(Connection)
    else if c == 25115 then Some(UpgradeInsecureRequests)
    else if c == 17101 then Some(IfModifiedSince)
    else if c == 13104 then Some(IfNoneMatch)
    else if c == 13108 then Some(CacheControl)
    else if c == 13101 then Some(ContentRange)
    else if c == 12101 then Some(ContentType)
    else if c == 16103 then Some(ContentEncoding)
    else if c == 16110 then Some(ContentLocation)
    else if c == 16101 then Some(ContentLanguage)
    else if c == 4103 then Some(ETag)
    else None
  }

  lemma CodeOfName(f: ReqField)
    ensures Code(ReqName(f)) == FieldCode(f)
  {
    var k := Position(f);
    if k < 5 { CodeOfNames0(f); }
    else if k < 10 { CodeOfNames1(f); }
    else if k < 15 { CodeOfNames2(f); }
    else { CodeOfNames3(f); }
  }

  lemma CodeOfNames0(f: ReqField)
    requires 0 <= Position(f) < 5
    ensures Code(ReqName(f)) == FieldCode(f)
  {
    match f
    case Host =>
    case UserAgent =>
    case Upgrade =>
    case SecWebSocketKey =>
    case Accept =>
  }

  lemma CodeOfNames1(f: ReqField)
    requires 5 <= Position(f) < 10
    ensures Code(ReqName(f)) == FieldCode(f)
  {
    match f
    case AcceptLanguage =>
    case AcceptEncoding =>
    case Referer =>
    case Connection =>
    case UpgradeInsecureRequests =>
  }

  lemma CodeOfNames2(f: ReqField)
    requires 10 <= Position(f) < 15
    ensures Code(ReqName(f)) == FieldCode(f)
  {
    match f
    case IfModifiedSince =>
    case IfNoneMatch =>
    case CacheControl =>
    case ContentRange =>
    case ContentType =>
  }

  lemma CodeOfNames3(f: ReqField)
    requires 15 <= Position(f) < 19
    ensures Code(ReqName(f)) == FieldCode(f)
  {
    match f
    case ContentEncoding =>
    case ContentLocation =>
    case ContentLanguage =>
    case ETag =>
  }

  lemma CodeInverse(f: ReqField)
    ensures FieldOfCode(FieldCode(f)) == Some(f)
  {
  }

  lemma ContentLengthCode()
    ensures Code(CONTENT_LENGTH) == 14104
    ensures FieldOfCode(14104) == None
  {
  }

  lemma KeysDistinct(f: ReqField, g: ReqField)
    requires f != g
    ensures Code(ReqName(f)) != Code(ReqName(g))
    ensures Code(ReqName(f)) != Code(CONTENT_LENGTH)
  {
    CodeOfName(f);
    CodeOfName(g);
    CodeInverse(f);
    CodeInverse(g);
    ContentLengthCode();
  }

  /** Every spelling of a field name, in any ASCII case, is classified as that
      field and keeps the value. */
  lemma ClassifyField(name: seq<byte>, f: ReqField, value: seq<byte>)
    requires EqIgnoreCase(name, ReqName(f))
    ensures Classify(name, value) == Ok(Req(f, value))
  {
    match FirstField(name, 0)
    case None =>
      AllFieldsListed(name);
    case Some(g) =>
      if g != f {
        EqIgnoreCaseSym(name, ReqName(g));
        EqIgnoreCaseTrans(ReqName(g), name, ReqName(f));
        NamesDistinct(g, f);
      }
  }

  /** Content-Length in any case: its value in decimal digits, or the error. */
  lemma ClassifyContentLength(name: seq<byte>, value: seq<byte>)
    requires EqIgnoreCase(name, CONTENT_LENGTH)
    ensures AtoiSpec(value).Some? ==> Classify(name, value) == Ok(ContentLength(AtoiSpec(value).value))
    ensures AtoiSpec(value).None? ==> Classify(name, value) == Err(Some("invalid content-length"))
  {
    match FirstField(name, 0)
    case None =>
    case Some(g) =>
      EqIgnoreCaseSym(name, ReqName(g));
      EqIgnoreCaseTrans(ReqName(g), name, CONTENT_LENGTH);
      NamesDistinct(g, if g == Host then ETag else Host);
  }

  // ---------------------------------------------------------------------------
  // Response headers

  datatype RespField =
    | AccessControlAllowOrigin | RespConnection | Date | KeepAlive | LastModified
    | Server | SetCookie | TransferEncoding | Vary | RespContentRange
    | RespContentType | RespContentEncoding | RespContentLocation
    | RespContentLanguage | RespETag

  datatype ResponseHeader =
    | Resp(field: RespField, value: seq<byte>)
    | RespContentLength(length: nat)
    | SecWebSocketAccept(key: seq<byte>)
    | RespOther(name: seq<byte>, value: seq<byte>)

  function RespName(f: RespField): seq<byte> {
    match f
    case AccessControlAllowOrigin => Str("Access-Control-Allow-Origin")
    case RespConnection => Str("Connection")
    case Date => Str("Date")
    case KeepAlive => Str("Keep-Alive")
    case LastModified => Str("Last-Modified")
    case Server => Str("Server")
    case SetCookie => Str("Set-Cookie")
    case TransferEncoding => Str("Transfer-Encoding")
    case Vary => Str("Vary")
    case RespContentRange => Str("Content-Range")
    case RespContentType => Str("Content-Type")
    case RespContentEncoding => Str("Content-Encoding")
    case RespContentLocation => Str("Content-Location")
    case RespContentLanguage => Str("Content-Language")
    case RespETag => Str("ETag")
  }

  const SEC_WEBSOCKET_ACCEPT: seq<byte> := Str("Sec-WebSocket-Accept")
  const SEPARATOR: seq<byte> := Str(": ")

  /** The name a header is written under. */
  function Name(h: ResponseHeader): seq<byte> {
    match h
    case Resp(f, _) => RespName(f)
    case RespContentLength(_) => CONTENT_LENGTH
    case SecWebSocketAccept(_) => SEC_WEBSOCKET_ACCEPT
    case RespOther(k, _) => k
  }

  /** The text written after the separator: a length in decimal, an accept key
      verbatim, otherwise the header's value. */
  function Text(h: ResponseHeader): seq<byte> {
    match h
    case Resp(_, v) => v
    case RespContentLength(n) => Digits(n)
    case SecWebSocketAccept(k) => k
    case RespOther(_, v) => v
  }

  /** The `write_all` calls `ResponseHeader::write` issues, in order; a zero
      Content-Length issues none. */
  function Chunks(h: ResponseHeader): seq<seq<byte>> {
    if h == RespContentLength(0) then [] else [Name(h), SEPARATOR, Text(h), CRLF]
  }

  /** `ResponseHeader::write`. A failure of any call is reported as Disconnected. */
  method Write(h: ResponseHeader, w: Client) returns (r: Result<(), HttpError>)
    modifies w
    ensures w.out == old(w.out) + Sent(Chunks(h), old(w.budget))
    ensures w.budget == Left(old(w.budget), |Chunks(h)|) && w.input == old(w.input)
    ensures r.Ok? <==> old(w.budget) >= |Chunks(h)|
    ensures r.Err? ==> r.error == Disconnected
  {
    if h == RespContentLength(0) {
      SentNothing(w.budget);
      return Ok(());
    }
    var name, text := Name(h), Text(h);
    WriteSplit(h, w.budget);
    var ok := w.WriteAll(name);
    if !ok {
      return Err(Disconnected);
    }
    var ok1 := WriteValue(text, w);
    r := if ok1 then Ok(()) else Err(Disconnected);
  }

  /** How the calls of `write` divide: the name, then the other three. */
  lemma WriteSplit(h: ResponseHeader, budget: nat)
    requires h != RespContentLength(0)
    ensures |Chunks(h)| == 4
    ensures Sent(Chunks(h), budget)
            == Sent([Name(h)], budget) + Sent([SEPARATOR, Text(h), CRLF], Left(budget, 1))
    ensures Left(Left(budget, 1), 3) == Left(budget, 4)
    ensures budget >= 4 <==> budget > 0 && Left(budget, 1) >= 3
    ensures budget == 0 ==> Sent(Chunks(h), budget) == []
  {
    ChunksSplit(h);
    SentFront(Name(h), [SEPARATOR, Text(h), CRLF], budget);
    SentIsPrefix(Chunks(h), budget);
  }

  lemma ChunksSplit(h: ResponseHeader)
    requires h != RespContentLength(0)
    ensures Chunks(h) == [Name(h)] + [SEPARATOR, Text(h), CRLF]
  {
  }

  /** The separator, the value and the line end: three calls, all issued
      whatever the earlier ones returned. */
  method WriteValue(text: seq<byte>, w: Client) returns (ok: bool)
    modifies w
    ensures w.out == old(w.out) + Sent([SEPARATOR, text, CRLF], old(w.budget))
    ensures w.budget == Left(old(w.budget), 3) && w.input == old(w.input)
    ensures ok <==> old(w.budget) >= 3
  {
    ghost var b0 := w.budget;
    var ok1 := w.WriteAll(SEPARATOR);
    var ok2 := w.WriteAll(text);
    var ok3 := w.WriteAll(CRLF);
    SentThree(SEPARATOR, text, CRLF, b0);
    ok := ok1 && ok2 && ok3;
  }

  /** What a header puts on the wire when the writer accepts it all:
      "Name: value" and CRLF. */
  lemma HeaderLine(h: ResponseHeader)
    requires h != RespContentLength(0)
    ensures Concat(Chunks(h)) == Name(h) + Str(": ") + Text(h) + CRLF
  {
    var n, t := Name(h), Text(h);
    assert [n, SEPARATOR, t, CRLF][..3] == [n, SEPARATOR, t];
    assert [n, SEPARATOR, t][..2] == [n, SEPARATOR];
    assert [n, SEPARATOR][..1] == [n];
    var none: seq<seq<byte>> := [];
    assert [n][..0] == none;
    assert Concat([n]) == n;
    assert Concat([n, SEPARATOR]) == n + SEPARATOR;
    assert Concat([n, SEPARATOR, t]) == n + SEPARATOR + t;
  }

  /** A Content-Length the server writes is read back by the request
      classifier as the same length. */
  lemma ContentLengthReadBack(n: nat)
    requires 0 < n < U32
    ensures Name(RespContentLength(n)) == CONTENT_LENGTH
    ensures Classify(CONTENT_LENGTH, Text(RespContentLength(n))) == Ok(ContentLength(n))
  {
    AtoiDigits(n);
    ClassifyContentLength(CONTENT_LENGTH, Digits(n));
  }
}
