/** The standalone `http` crate's generic request parser
    `HttpRequest<MAX_EXTRA_HEADERS>` (http/src/request.rs): Content-Length in
    a field of its own, every other header in the first free one of a fixed
    number of slots. */
module HttpCrateRequest {
  import opened Common
  import opened Ascii
  import opened Http
  import opened HttpCrateHeader
  import HttpCrate

  type HttpMethod = HttpCrate.HttpMethod

  datatype HttpRequest = HttpRequest(
    httpMethod: HttpMethod,
    path: seq<byte>,
    body: Option<seq<byte>>,
    contentLength: Option<HttpHeader>,
    headers: seq<Option<HttpHeader>>)

  /** The request `parse_request` starts from, with `slots` empty header slots. */
  function Initial(slots: nat): (r: HttpRequest)
    ensures |r.headers| == slots && forall k :: 0 <= k < slots ==> r.headers[k] == None
    ensures r.path == [] && r.contentLength == None && r.body == None
  {
    HttpRequest(HttpCrate.GET, [], None, None, seq(slots, _ => None))
  }

  /** `parse_request_line`: `splitn(3, ' ')`, the method (the same six names
      as the crate's older parser), then the path. */
  function RequestLine(req: HttpRequest, line: seq<byte>): (r: Result<HttpRequest, HttpError>)
    ensures r.Err? ==> r.error == ProtocolError("unknown http method")
    ensures r.Ok? ==> r.value == req.(httpMethod := r.value.httpMethod, path := r.value.path)
    ensures r.Ok? ==> HttpCrate.MethodName(r.value.httpMethod) == SplitOnce(line, SP).0
  {
    var (w0, rest) := SplitOnce(line, SP);
    match HttpCrate.MethodFrom(w0)
    case None => Err(ProtocolError("unknown http method"))
    case Some(m) =>
      match rest
      case None => Ok(req.(httpMethod := m))
      case Some(r) => Ok(req.(httpMethod := m, path := SplitOnce(r, SP).0))
  }

  /** The first empty slot at or after `i`. */
  function FirstEmpty(hs: seq<Option<HttpHeader>>, i: nat): (r: Option<nat>)
    requires i <= |hs|
    ensures r.Some? ==> i <= r.value < |hs| && hs[r.value] == None
                        && forall k :: i <= k < r.value ==> hs[k].Some?
    ensures r.None? ==> forall k :: i <= k < |hs| ==> hs[k].Some?
    decreases |hs| - i
  {
    if i == |hs| then None
    else if hs[i] == None then Some(i)
    else FirstEmpty(hs, i + 1)
  }

  /** Where a classified header goes: Content-Length to its own field
      (replacing an earlier one), anything else to the first empty slot, or
      nowhere when every slot is taken. */
  function Store(req: HttpRequest, h: HttpHeader): (r: HttpRequest)
    ensures r.httpMethod == req.httpMethod && r.path == req.path && r.body == req.body
    ensures |r.headers| == |req.headers|
  {
    if h.ContentLength? then req.(contentLength := Some(h))
    else match FirstEmpty(req.headers, 0)
      case None => req
      case Some(s) => req.(headers := req.headers[s := Some(h)])
  }

  /** `parse_header_line`: split at the first ':', trim both halves; a line
      without ':' is ignored, otherwise the header is classified and stored;
      a Content-Length that is not a number is an error. */
  function HeaderLine(req: HttpRequest, line: seq<byte>): (r: Result<HttpRequest, HttpError>)
    ensures r.Err? ==> r.error == ProtocolError("invalid content-length")
    ensures r.Ok? ==> r.value.httpMethod == req.httpMethod && r.value.path == req.path && r.value.body == req.body
    ensures r.Ok? ==> |r.value.headers| == |req.headers|
  {
    var (name, value) := SplitOnce(line, COLON);
    match value
    case None => Ok(req)
    case Some(v) =>
      match TryFrom(Trim(name), Trim(v))
      case Ok(h) => Ok(Store(req, h))
      case Err(None) => Ok(req)
      case Err(Some(e)) => Err(ProtocolError(e))
  }

  /** Content-Length takes no slot: it is stored whether or not the slots
      are full, and a later one replaces an earlier one. */
  lemma LengthTakesNoSlot(req: HttpRequest, n: nat)
    requires n < U32
    ensures HeaderLine(req, HttpCrate.LengthLine(n)) == Ok(req.(contentLength := Some(ContentLength(n))))
  {
    HttpCrate.LengthLineShape(n);
    HttpCrate.SplitAtFirst(CONTENT_LENGTH, COLON, [SP] + Digits(n));
    HttpCrate.LengthTrim(n);
    AtoiDigits(n);
  }

  /** Any other header fills the first empty slot and leaves the others. */
  lemma OtherFillsFirstEmpty(req: HttpRequest, h: HttpHeader, i: nat)
    requires !h.ContentLength? && FirstEmpty(req.headers, 0) == Some(i)
    ensures Store(req, h) == req.(headers := req.headers[i := Some(h)])
  {
  }

  /** With every slot taken any other header is dropped. */
  lemma FullSlotsDrop(req: HttpRequest, h: HttpHeader)
    requires !h.ContentLength? && forall k :: 0 <= k < |req.headers| ==> req.headers[k].Some?
    ensures Store(req, h) == req
  {
  }

  /** Slots fill from the front: no taken slot follows an empty one. */
  predicate Packed(hs: seq<Option<HttpHeader>>) {
    forall i, j :: 0 <= i < j < |hs| && hs[j].Some? ==> hs[i].Some?
  }

  lemma StorePacked(req: HttpRequest, h: HttpHeader)
    requires Packed(req.headers)
    ensures Packed(Store(req, h).headers)
  {
    if !h.ContentLength? && FirstEmpty(req.headers, 0).Some? {
      var s := FirstEmpty(req.headers, 0).value;
      var hs := Store(req, h).headers;
      forall i, j | 0 <= i < j < |hs| && hs[j].Some?
        ensures hs[i].Some?
      {
        assert j <= s;
      }
    }
  }

  lemma {:induction false} FoldPacked(r: HttpRequest, lines: seq<seq<byte>>, isFirst: bool)
    requires Packed(r.headers)
    ensures var f := HttpCrate.Fold(RequestLine, HeaderLine, r, lines, isFirst);
            f.Ok? ==> Packed(f.value.headers) && |f.value.headers| == |r.headers|
    decreases |lines|
  {
    if lines != [] {
      var s := if isFirst then RequestLine(r, lines[0]) else HeaderLine(r, lines[0]);
      if s.Ok? {
        if !isFirst {
          var (name, value) := SplitOnce(lines[0], COLON);
          if value.Some? && TryFrom(Trim(name), Trim(value.value)).Ok? {
            StorePacked(r, TryFrom(Trim(name), Trim(value.value)).value);
          }
        }
        FoldPacked(s.value, lines[1..], false);
      }
    }
  }

  function ParseSpec(data: seq<byte>, slots: nat): Result<HttpRequest, HttpError> {
    if !ValidUtf8(data) then Err(ProtocolError("http request is not valid utf8"))
    else
      match HttpCrate.Fold(RequestLine, HeaderLine, Initial(slots), HttpCrate.LinesFrom(data, 0), true)
      case Err(e) => Err(e)
      case Ok(req) => if req.path != [] then Ok(req) else Err(ProtocolError("malformed HTTP request"))
  }

  /** `parse_request`: the request line once, then header lines, through the
      crate's line scanner. */
  method ParseRequest(data: seq<byte>, slots: nat) returns (r: Result<HttpRequest, HttpError>)
    ensures r == ParseSpec(data, slots)
  {
    if !ValidUtf8(data) {
      return Err(ProtocolError("http request is not valid utf8"));
    }
    var scanned := HttpCrate.ScanLines(data, Initial(slots), RequestLine, HeaderLine);
    if scanned.Err? {
      return Err(scanned.error);
    }
    var req := scanned.value;
    if req.path != [] {
      return Ok(req);
    }
    return Err(ProtocolError("malformed HTTP request"));
  }

  /** A parsed request has its path and `slots` slots filled from the front. */
  lemma ParsedPacked(data: seq<byte>, slots: nat)
    ensures ParseSpec(data, slots).Ok? ==>
              ParseSpec(data, slots).value.path != []
              && |ParseSpec(data, slots).value.headers| == slots
              && Packed(ParseSpec(data, slots).value.headers)
  {
    FoldPacked(Initial(slots), HttpCrate.LinesFrom(data, 0), true);
  }

  function TryFromSpec(value: seq<byte>, slots: nat): Result<HttpRequest, HttpError> {
    if |value| < 15 then Err(Incomplete)
    else match HttpCrate.HeaderEnd(value, 1)
      case None => Err(Incomplete)
      case Some(i) => ParseSpec(value[..i], slots)
  }

  /** `HttpRequest::try_from`: under 15 bytes is Incomplete; otherwise the
      shortest prefix ending in an empty line is parsed; without one the
      request is Incomplete. */
  method TryFromBytes(value: seq<byte>, slots: nat) returns (r: Result<HttpRequest, HttpError>)
    ensures r == TryFromSpec(value, slots)
    ensures |value| < 15 ==> r == Err(Incomplete)
  {
    var len := |value|;
    if len < 15 {
      return Err(Incomplete);
    }
    for i := 1 to len + 1
      invariant forall k :: 1 <= k < i ==> !HttpCrate.EndsHeader(value, k)
    {
      if i >= 4 && value[i - 4] == CR && value[i - 3] == LF && value[i - 2] == CR && value[i - 1] == LF {
        HttpCrate.HeaderEndFrom(value, 1, i);
        r := ParseRequest(value[..i], slots);
        return;
      }
    }
    HttpCrate.HeaderEndFrom(value, 1, len + 1);
    return Err(Incomplete);
  }

  /** `contains_request_headers`: the length of the shortest prefix that
      ends with CRLF CRLF. */
  method ContainsRequestHeaders(data: seq<byte>) returns (r: Option<nat>)
    ensures r.Some? ==> 1 <= r.value <= |data| && HttpCrate.EndsHeader(data, r.value)
                        && forall k :: 1 <= k < r.value ==> !HttpCrate.EndsHeader(data, k)
    ensures r.None? ==> forall k :: 1 <= k <= |data| ==> !HttpCrate.EndsHeader(data, k)
  {
    for i := 1 to |data| + 1
      invariant forall k :: 1 <= k < i ==> !HttpCrate.EndsHeader(data, k)
    {
      if i >= 4 && data[i - 4] == CR && data[i - 3] == LF && data[i - 2] == CR && data[i - 1] == LF {
        return Some(i);
      }
    }
    return None;
  }

  /** `content_len`: the stored Content-Length, or 0. */
  function ContentLen(req: HttpRequest): (n: nat)
    ensures req.contentLength.Some? && req.contentLength.value.ContentLength? ==> n == req.contentLength.value.length
    ensures req.contentLength == None ==> n == 0
  {
    match req.contentLength
    case Some(ContentLength(n)) => n
    case _ => 0
  }

  /** The variant of a header, as `core::mem::discriminant` compares it: an
      `Other` matches any `Other`, whatever its name. */
  function Tag(h: HttpHeader): nat {
    match h
    case ContentType(_) => 0
    case ContentLength(_) => 1
    case Server(_) => 2
    case Upgrade(_) => 3
    case SecWebSocketKey(_) => 4
    case SecWebSocketAccept(_) => 5
    case Other(_, _) => 6
  }

  /** The header `get_header` answers, scanning from slot `i`: the first of
      the same variant, with an empty slot ending the scan. */
  function Lookup(hs: seq<Option<HttpHeader>>, head: HttpHeader, i: nat): (r: Option<HttpHeader>)
    requires i <= |hs|
    ensures r.Some? ==> Tag(r.value) == Tag(head)
                        && exists k :: i <= k < |hs| && hs[k] == r
    decreases |hs| - i
  {
    if i == |hs| then None
    else match hs[i]
      case None => None
      case Some(h) => if Tag(h) == Tag(head) then Some(h) else Lookup(hs, head, i + 1)
  }

  /** `get_header`. */
  method GetHeader(req: HttpRequest, head: HttpHeader) returns (r: Option<HttpHeader>)
    ensures r == Lookup(req.headers, head, 0)
  {
    for i := 0 to |req.headers|
      invariant Lookup(req.headers, head, 0) == Lookup(req.headers, head, i)
    {
      match req.headers[i] {
        case None =>
          return None;
        case Some(h) =>
          if Tag(h) == Tag(head) {
            return Some(h);
          }
      }
    }
    return None;
  }

  /** On slots filled from the front, stopping at an empty slot loses
      nothing: `get_header` finds a header of that variant whenever one is
      stored, and the first one. */
  lemma {:induction false} LookupPacked(hs: seq<Option<HttpHeader>>, head: HttpHeader, i: nat)
    requires Packed(hs) && i <= |hs|
    ensures Lookup(hs, head, i).None? <==>
              forall k :: i <= k < |hs| && hs[k].Some? ==> Tag(hs[k].value) != Tag(head)
    ensures Lookup(hs, head, i).Some? ==>
              exists k :: i <= k < |hs| && hs[k] == Lookup(hs, head, i)
                          && forall j :: i <= j < k ==> hs[j].Some? && Tag(hs[j].value) != Tag(head)
    decreases |hs| - i
  {
    if i < |hs| {
      if hs[i].Some? {
        LookupPacked(hs, head, i + 1);
        if Tag(hs[i].value) != Tag(head) && Lookup(hs, head, i + 1).Some? {
          var k :| i + 1 <= k < |hs| && hs[k] == Lookup(hs, head, i + 1)
                   && forall j :: i + 1 <= j < k ==> hs[j].Some? && Tag(hs[j].value) != Tag(head);
          assert forall j :: i <= j < k ==> hs[j].Some? && Tag(hs[j].value) != Tag(head);
        }
      }
    }
  }

  /** As written, `get_header` for an `Other` header ignores the key: asked
      for "Host", it answers the first `Other` header, here "Accept". */
  lemma GetHeaderIgnoresKey()
    ensures var hs := [Some(Other(Str("Accept"), Str("*/*"))), Some(Other(Str("Host"), Str("door")))];
            Lookup(hs, Other(Str("Host"), []), 0) == Some(Other(Str("Accept"), Str("*/*")))
  {
  }

  /** The header `get_header` is evidently meant to answer: the same
      variant and, for `Other`, the same key. */
  predicate Matches(h: HttpHeader, head: HttpHeader) {
    Tag(h) == Tag(head) && (head.Other? ==> h.name == head.name)
  }

  /** `get_header` with the key compared: an `Other` answer carries the key
      asked for, and nothing stored before it matches. */
  function LookupKeyed(hs: seq<Option<HttpHeader>>, head: HttpHeader, i: nat): (r: Option<HttpHeader>)
    requires i <= |hs|
    ensures r.Some? ==> Tag(r.value) == Tag(head) && (head.Other? ==> r.value.name == head.name)
    ensures r.Some? ==> exists k :: i <= k < |hs| && hs[k] == r
                          && forall j :: i <= j < k ==> hs[j].Some? && !Matches(hs[j].value, head)
    decreases |hs| - i
  {
    if i == |hs| then None
    else match hs[i]
      case None => None
      case Some(h) => if Matches(h, head) then Some(h) else LookupKeyed(hs, head, i + 1)
  }

  /** For every variant but `Other`, comparing the key changes nothing. */
  lemma {:induction false} LookupKeyedAgrees(hs: seq<Option<HttpHeader>>, head: HttpHeader, i: nat)
    requires i <= |hs| && !head.Other?
    ensures LookupKeyed(hs, head, i) == Lookup(hs, head, i)
    decreases |hs| - i
  {
    if i < |hs| && hs[i].Some? && !Matches(hs[i].value, head) {
      LookupKeyedAgrees(hs, head, i + 1);
    }
  }

  /** On slots filled from the front, the corrected lookup finds nothing
      exactly when no stored header matches. */
  lemma {:induction false} LookupKeyedPacked(hs: seq<Option<HttpHeader>>, head: HttpHeader, i: nat)
    requires Packed(hs) && i <= |hs|
    ensures LookupKeyed(hs, head, i).None? <==>
              forall k :: i <= k < |hs| && hs[k].Some? ==> !Matches(hs[k].value, head)
    decreases |hs| - i
  {
    if i < |hs| && hs[i].Some? && !Matches(hs[i].value, head) {
      LookupKeyedPacked(hs, head, i + 1);
    }
  }

  /** The corrected lookup answers the "Host" header of the same example. */
  lemma LookupKeyedExample()
    ensures var hs := [Some(Other(Str("Accept"), Str("*/*"))), Some(Other(Str("Host"), Str("door")))];
            LookupKeyed(hs, Other(Str("Host"), []), 0) == Some(Other(Str("Host"), Str("door")))
  {
    var hs := [Some(Other(Str("Accept"), Str("*/*"))), Some(Other(Str("Host"), Str("door")))];
    assert Str("Accept")[0] != Str("Host")[0];
    assert !Matches(hs[0].value, Other(Str("Host"), []));
  }
}
