/** The doorctrl HTTP/1.1 request parser (doorctrl/src/http/request.rs).

    A request is parsed from the whole receive buffer: the buffer must be UTF-8,
    it is cut into CRLF-terminated lines, the first line is the request line,
    the following lines are header fields, an empty line ends the header and is
    followed by Content-Length bytes of body. */
module HttpRequest {
  import opened Common
  import opened Ascii
  import opened Http
  import opened HttpHeader

  datatype HttpMethod = GET | POST | PUT | PATCH | DELETE | OPTIONS | HEAD

  function MethodName(m: HttpMethod): seq<byte> {
    match m
    case GET => Str("GET")
    case POST => Str("POST")
    case PUT => Str("PUT")
    case PATCH => Str("PATCH")
    case DELETE => Str("DELETE")
    case OPTIONS => Str("OPTIONS")
    case HEAD => Str("HEAD")
  }

  /** `HttpMethod::try_from`: exact, case-sensitive match on the seven names. */
  function MethodFrom(word: seq<byte>): (r: Result<HttpMethod, string>)
    ensures r.Ok? ==> MethodName(r.value) == word
    ensures r.Err? ==> r.error == "unknown http method"
  {
    if word == Str("GET") then Ok(GET)
    else if word == Str("POST") then Ok(POST)
    else if word == Str("PUT") then Ok(PUT)
    else if word == Str("PATCH") then Ok(PATCH)
    else if word == Str("DELETE") then Ok(DELETE)
    else if word == Str("OPTIONS") then Ok(OPTIONS)
    else if word == Str("HEAD") then Ok(HEAD)
    else Err("unknown http method")
  }

  /** Every method name is recognised as that method. */
  lemma MethodRoundTrip(m: HttpMethod)
    ensures MethodFrom(MethodName(m)) == Ok(m)
  {
    assert Str("GET")[0] != Str("POST")[0] && Str("GET")[0] != Str("PUT")[0];
    assert Str("POST")[1] != Str("PUT")[1];
    assert Str("PATCH")[0] != Str("DELETE")[0];
    assert Str("OPTIONS")[0] != Str("DELETE")[0];
    assert Str("HEAD")[0] != Str("GET")[0];
  }

  datatype Request = Request(
    httpMethod: HttpMethod,
    path: seq<byte>,
    host: seq<byte>,
    contentType: Option<seq<byte>>,
    userAgent: Option<seq<byte>>,
    contentLength: nat,
    body: Option<seq<byte>>,
    headerSlice: Option<seq<byte>>)

  /** The request `parse` starts from: GET, no path, host "unspecified". */
  const INITIAL: Request := Request(GET, [], Str("unspecified"), None, None, 0, None, None)

  /** `parse_request_line`: `splitn(3, ' ')`; the first word must be a method,
      the second becomes the path, the rest is ignored. */
  function RequestLine(req: Request, line: seq<byte>): (r: Result<Request, HttpError>)
    ensures r.Err? ==> r.error == ProtocolError("unknown http method")
    ensures r.Ok? ==>
              r.value.host == req.host && r.value.contentLength == req.contentLength
              && r.value.body == req.body && r.value.headerSlice == req.headerSlice
  {
    var (w0, rest) := SplitOnce(line, SP);
    match MethodFrom(w0)
    case Err(_) => Err(ProtocolError("unknown http method"))
    case Ok(m) =>
      match rest
      case None => Ok(req.(httpMethod := m))
      case Some(r) => Ok(req.(httpMethod := m, path := SplitOnce(r, SP).0))
  }

  /** A request line "METHOD path rest" sets exactly the method and the path. */
  lemma RequestLineWords(req: Request, m: HttpMethod, path: seq<byte>, rest: seq<byte>)
    requires SP !in path
    ensures RequestLine(req, MethodName(m) + [SP] + path + [SP] + rest)
            == Ok(req.(httpMethod := m, path := path))
  {
    var line := MethodName(m) + [SP] + path + [SP] + rest;
    MethodNoSpace(m);
    SplitAt(MethodName(m), path + [SP] + rest, SP);
    assert line == MethodName(m) + [SP] + (path + [SP] + rest);
    SplitAt(path, rest, SP);
    MethodRoundTrip(m);
  }

  lemma MethodNoSpace(m: HttpMethod)
    ensures SP !in MethodName(m)
  {
    var n := MethodName(m);
    forall i | 0 <= i < |n| ensures n[i] != SP {
      match m
      case GET => StrAt("GET", i);
      case POST => StrAt("POST", i);
      case PUT => StrAt("PUT", i);
      case PATCH => StrAt("PATCH", i);
      case DELETE => StrAt("DELETE", i);
      case OPTIONS => StrAt("OPTIONS", i);
      case HEAD => StrAt("HEAD", i);
    }
  }

  /** Splitting `a + [sep] + b` at the first `sep`, when `a` has none. */
  lemma SplitAt(a: seq<byte>, b: seq<byte>, sep: byte)
    requires sep !in a
    ensures SplitOnce(a + [sep] + b, sep) == (a, Some(b))
  {
    var s := a + [sep] + b;
    assert s[|a|] == sep;
    assert s[..|a|] == a;
    assert s[|a| + 1..] == b;
  }

  /** `resolve_header`: split at the first ':', trim both halves and classify.
      A line without ':' resolves to nothing. */
  function Resolve(line: seq<byte>): (r: Result<Option<RequestHeader>, HttpError>)
    ensures r.Err? ==> r.error == ProtocolError("invalid content-length")
  {
    var (name, value) := SplitOnce(line, COLON);
    match value
    case None => Ok(None)
    case Some(v) =>
      match Classify(Trim(name), Trim(v))
      case Ok(h) => Ok(Some(h))
      case Err(None) => Ok(None)
      case Err(Some(e)) => Err(ProtocolError(e))
  }

  /** The fields of the request a resolved header sets. */
  function Apply(req: Request, h: RequestHeader): (r: Request)
    ensures r.httpMethod == req.httpMethod && r.path == req.path
    ensures r.body == req.body && r.headerSlice == req.headerSlice
  {
    match h
    case ContentLength(l) => req.(contentLength := l)
    case Req(f, s) =>
      if f == Host then req.(host := s)
      else if f == ContentType then req.(contentType := Some(s))
      else if f == UserAgent then req.(userAgent := Some(s))
      else req
    case Other(_, _) => req
  }

  /** `parse_header_line`: the same resolution as `resolve_header`, then the
      field is stored. */
  function HeaderLine(req: Request, line: seq<byte>): (r: Result<Request, HttpError>)
    ensures r.Err? ==> r.error == ProtocolError("invalid content-length")
    ensures r.Ok? ==>
              r.value.httpMethod == req.httpMethod && r.value.path == req.path
              && r.value.body == req.body && r.value.headerSlice == req.headerSlice
    ensures COLON !in line ==> r == Ok(req)
  {
    match Resolve(line)
    case Err(e) => Err(e)
    case Ok(None) => Ok(req)
    case Ok(Some(h)) => Ok(Apply(req, h))
  }

  /** A line "name:value" (the name without ':') is classified on its trimmed
      halves; an unknown name leaves the request as it was. */
  lemma HeaderLineClassified(req: Request, name: seq<byte>, value: seq<byte>)
    requires COLON !in name
    ensures var c := Classify(Trim(name), Trim(value));
      && (c.Ok? ==> HeaderLine(req, name + [COLON] + value) == Ok(Apply(req, c.value)))
      && (c.Err? ==> HeaderLine(req, name + [COLON] + value) == Err(ProtocolError("invalid content-length")))
  {
    SplitAt(name, value, COLON);
  }

  /** A "Host: value" line in any case of the name sets the host to the trimmed value. */
  lemma HostLine(req: Request, name: seq<byte>, value: seq<byte>)
    requires COLON !in name && EqIgnoreCase(Trim(name), ReqName(Host))
    ensures HeaderLine(req, name + [COLON] + value) == Ok(req.(host := Trim(value)))
  {
    HeaderLineClassified(req, name, value);
    ClassifyField(Trim(name), Host, Trim(value));
  }

  /** A Content-Length line sets the length, or fails the parse when its value
      is not all digits. */
  lemma ContentLengthLine(req: Request, name: seq<byte>, value: seq<byte>)
    requires COLON !in name && EqIgnoreCase(Trim(name), CONTENT_LENGTH)
    ensures AtoiSpec(Trim(value)).Some? ==>
              HeaderLine(req, name + [COLON] + value)
              == Ok(req.(contentLength := AtoiSpec(Trim(value)).value))
    ensures AtoiSpec(Trim(value)).None? ==>
              HeaderLine(req, name + [COLON] + value) == Err(ProtocolError("invalid content-length"))
  {
    HeaderLineClassified(req, name, value);
    ClassifyContentLength(Trim(name), Trim(value));
    if AtoiSpec(Trim(value)).Some? {
      ApplyLength(req, AtoiSpec(Trim(value)).value);
    }
  }

  lemma ApplyLength(req: Request, n: nat)
    ensures Apply(req, ContentLength(n)) == req.(contentLength := n)
  {
  }

  // ---------------------------------------------------------------------------
  // Line scanning

  /** `data[start..j]` ends with CRLF. */
  predicate EndsLine(data: seq<byte>, start: nat, j: nat) {
    start + 2 <= j <= |data| && data[j - 2] == CR && data[j - 1] == LF
  }

  /** The first end of a line that starts at `start`, searching from `j`. */
  function LineEnd(data: seq<byte>, start: nat, j: nat): (r: Option<nat>)
    ensures r.Some? ==>
              j <= r.value && EndsLine(data, start, r.value)
              && forall k :: j <= k < r.value ==> !EndsLine(data, start, k)
    ensures r.None? ==> forall k :: j <= k <= |data| ==> !EndsLine(data, start, k)
    decreases |data| + 1 - j
  {
    if j > |data| then None
    else if EndsLine(data, start, j) then Some(j)
    else LineEnd(data, start, j + 1)
  }

  /** The first line end at or after `start` is `i` when no earlier position is one. */
  lemma LineEndFirst(data: seq<byte>, start: nat, i: nat)
    requires start <= i <= |data| && forall k :: start <= k < i ==> !EndsLine(data, start, k)
    ensures EndsLine(data, start, i) ==> LineEnd(data, start, start) == Some(i)
    ensures i == |data| && !EndsLine(data, start, i) ==> LineEnd(data, start, start) == None
  {
    LineEndFrom(data, start, start, i);
  }

  /** One more position searched without finding a line end. */
  lemma NoLineEndYet(data: seq<byte>, start: nat, i: nat)
    requires forall k :: start <= k < i ==> !EndsLine(data, start, k)
    requires !EndsLine(data, start, i)
    ensures forall k :: start <= k < i + 1 ==> !EndsLine(data, start, k)
  {
  }

  lemma {:induction false} LineEndFrom(data: seq<byte>, start: nat, j: nat, i: nat)
    requires j <= i <= |data| && forall k :: j <= k < i ==> !EndsLine(data, start, k)
    ensures LineEnd(data, start, j) == LineEnd(data, start, i)
    decreases i - j
  {
    if j < i {
      LineEndFrom(data, start, j + 1, i);
    }
  }

  /** `line` holds no CR immediately followed by LF. */
  predicate NoCrlf(line: seq<byte>) {
    forall k :: 0 <= k < |line| - 1 ==> !(line[k] == CR && line[k + 1] == LF)
  }

  /** Lines, each followed by CRLF. */
  function Joined(lines: seq<seq<byte>>): seq<byte> {
    if lines == [] then [] else lines[0] + CRLF + Joined(lines[1..])
  }

  /** Bytes in front of the scanned part do not move its line ends. */
  lemma {:induction false} LineEndShift(p: seq<byte>, data: seq<byte>, start: nat, j: nat)
    requires start <= j <= |data|
    ensures LineEnd(p + data, |p| + start, |p| + j)
            == match LineEnd(data, start, j) case None => None case Some(i) => Some(|p| + i)
    decreases |data| - j
  {
    var pd := p + data;
    assert EndsLine(pd, |p| + start, |p| + j) == EndsLine(data, start, j) by {
      if j >= 2 {
        assert pd[|p| + j - 2] == data[j - 2] && pd[|p| + j - 1] == data[j - 1];
      }
    }
    if j < |data| {
      LineEndShift(p, data, start, j + 1);
    } else {
      assert !EndsLine(pd, |p| + start, |p| + j + 1);
    }
  }

  /** The first line of `line + CRLF + more` is `line`. */
  lemma FirstLine(line: seq<byte>, more: seq<byte>)
    requires NoCrlf(line)
    ensures var data := line + CRLF + more;
      LineEnd(data, 0, 0) == Some(|line| + 2) && data[0..|line|] == line
  {
    var data := line + CRLF + more;
    forall k | 0 <= k < |line| + 2 ensures !EndsLine(data, 0, k) {
      if k == |line| + 1 {
        assert data[k - 1] == CR;
      } else if k >= 2 {
        assert data[k - 2] == line[k - 2] && data[k - 1] == line[k - 1];
      }
    }
    assert data[|line|] == CR && data[|line| + 1] == LF;
    LineEndFirst(data, 0, |line| + 2);
  }

  /** What `parse` has gathered by the start of a line. */
  datatype Scan = Scan(req: Request, requestLineDone: bool, headerStart: nat, headerEnd: nat)

  const START: Scan := Scan(INITIAL, false, 0, 0)

  predicate Consistent(data: seq<byte>, start: nat, st: Scan) {
    st.headerStart <= st.headerEnd <= start <= |data|
    && (start == 0 || EndsLine(data, 0, start))
    && (start == 0 <==> !st.requestLineDone)
    && (st.headerStart == 0 <==> st.headerEnd == 0)
  }

  /** The end of the loop: record the header block, then report. */
  function Finish(data: seq<byte>, st: Scan, done: bool): Result<Request, HttpError>
    requires st.headerStart <= st.headerEnd <= |data|
  {
    var req := if st.headerStart != 0 && st.headerEnd != 0
               then st.req.(headerSlice := Some(data[st.headerStart..st.headerEnd]))
               else st.req;
    if !done then Err(Incomplete)
    else if req.path == [] then Err(ProtocolError("malformed HTTP request"))
    else Ok(req)
  }

  /** How a request line or a header line is applied to the request. */
  type LineFn = (Request, seq<byte>) -> Result<Request, HttpError>

  /** The loop of `parse` from the line that starts at `start`, with the
      handling of one line given as `first` (the request line) and `rest`
      (header lines). */
  function ScanFrom(data: seq<byte>, start: nat, st: Scan, first: LineFn, rest: LineFn): Result<Request, HttpError>
    requires Consistent(data, start, st)
    decreases |data| - start
  {
    match LineEnd(data, start, start)
    case None => Finish(data, st, false)
    case Some(i) =>
      if i == start + 2 then
        // an empty line: the header is complete
        var cl := st.req.contentLength;
        if cl > 0 then
          if i + cl > |data| then Err(Incomplete)
          else Finish(data, st.(req := st.req.(body := Some(data[i..i + cl]))), true)
        else Finish(data, st, true)
      else if !st.requestLineDone then
        match first(st.req, data[start..i - 2])
        case Err(e) => Err(e)
        case Ok(req) => ScanFrom(data, i, st.(req := req, requestLineDone := true), first, rest)
      else
        match rest(st.req, data[start..i - 2])
        case Err(e) => Err(e)
        case Ok(req) =>
          var hs := if st.headerStart == 0 then start else st.headerStart;
          ScanFrom(data, i, Scan(req, true, hs, i), first, rest)
  }

  function ParseFrom(data: seq<byte>, start: nat, st: Scan): Result<Request, HttpError>
    requires Consistent(data, start, st)
  {
    ScanFrom(data, start, st, RequestLine, HeaderLine)
  }

  // One unfolding of ParseFrom per kind of line, for the loop of Parse.

  lemma ParseBlank(data: seq<byte>, start: nat, st: Scan, first: LineFn, rest: LineFn)
    requires Consistent(data, start, st) && LineEnd(data, start, start) == Some(start + 2)
    ensures var i, cl, r := start + 2, st.req.contentLength, ScanFrom(data, start, st, first, rest);
      && (cl > 0 && i + cl > |data| ==> r == Err(Incomplete))
      && (cl > 0 && i + cl <= |data| ==>
            r == Finish(data, st.(req := st.req.(body := Some(data[i..i + cl]))), true))
      && (cl == 0 ==> r == Finish(data, st, true))
  {
  }

  lemma ParseRequestLine(data: seq<byte>, start: nat, i: nat, st: Scan, first: LineFn, rest: LineFn)
    requires Consistent(data, start, st) && LineEnd(data, start, start) == Some(i) && i != start + 2
    requires !st.requestLineDone
    ensures var next := first(st.req, data[start..i - 2]);
      && (next.Err? ==> ScanFrom(data, start, st, first, rest) == Err(next.error))
      && (next.Ok? ==>
            var st' := st.(req := next.value, requestLineDone := true);
            Consistent(data, i, st')
            && ScanFrom(data, start, st, first, rest) == ScanFrom(data, i, st', first, rest))
  {
  }

  lemma ParseHeaderLine(data: seq<byte>, start: nat, i: nat, st: Scan, first: LineFn, rest: LineFn)
    requires Consistent(data, start, st) && LineEnd(data, start, start) == Some(i) && i != start + 2
    requires st.requestLineDone
    ensures var next := rest(st.req, data[start..i - 2]);
      && (next.Err? ==> ScanFrom(data, start, st, first, rest) == Err(next.error))
      && (next.Ok? ==>
            var hs := if st.headerStart == 0 then start else st.headerStart;
            var st' := Scan(next.value, true, hs, i);
            Consistent(data, i, st')
            && ScanFrom(data, start, st, first, rest) == ScanFrom(data, i, st', first, rest))
  {
  }

  /** `HttpRequest::parse`. */
  function ParseSpec(data: seq<byte>): Result<Request, HttpError> {
    if !ValidUtf8(data) then Err(ProtocolError("http request is not valid utf8"))
    else ParseFrom(data, 0, START)
  }

  /** `HttpRequest::parse`: one pass over the buffer, byte by byte. */
  method Parse(data: seq<byte>) returns (r: Result<Request, HttpError>)
    ensures r == ParseSpec(data)
  {
    if !ValidUtf8(data) {
      return Err(ProtocolError("http request is not valid utf8"));
    }
    r := ScanLines(data, RequestLine, HeaderLine);
  }

  /** The loop of `parse`: find each CRLF, hand the line before it to the
      request-line parser `first` or the header-line parser `rest`, and stop
      at the empty line. The loop is proved once for any pair of parsers. */
  method ScanLines(data: seq<byte>, first: LineFn, rest: LineFn) returns (r: Result<Request, HttpError>)
    ensures r == ScanFrom(data, 0, START, first, rest)
  {
    var req := INITIAL;
    var requestLineDone := false;
    var headerStart: nat := 0;
    var headerEnd: nat := 0;
    var lineStart: nat := 0;
    for i := 0 to |data| + 1
      invariant lineStart <= i
      invariant Consistent(data, lineStart, Scan(req, requestLineDone, headerStart, headerEnd))
      invariant forall k :: lineStart <= k < i ==> !EndsLine(data, lineStart, k)
      invariant ScanFrom(data, lineStart, Scan(req, requestLineDone, headerStart, headerEnd), first, rest)
                == ScanFrom(data, 0, START, first, rest)
    {
      LineEndFirst(data, lineStart, i);
      if i == lineStart + 2 && data[lineStart] == CR && data[lineStart + 1] == LF {
        r := HeadersDone(data, lineStart, Scan(req, requestLineDone, headerStart, headerEnd), first, rest);
        return;
      }
      if i >= lineStart + 2 && data[i - 2] == CR && data[i - 1] == LF {
        var next := TakeLine(data, lineStart, i, Scan(req, requestLineDone, headerStart, headerEnd), first, rest);
        if next.Err? {
          return Err(next.error);
        }
        req, requestLineDone, headerStart, headerEnd :=
          next.value.req, next.value.requestLineDone, next.value.headerStart, next.value.headerEnd;
        lineStart := i;
      }
      NoLineEndYet(data, lineStart, i);
    }
    LineEndFirst(data, lineStart, |data|);
    r := Conclude(data, Scan(req, requestLineDone, headerStart, headerEnd), false);
  }

  /** The empty line that ends the header: take `Content-Length` bytes of body
      after it, if that many have arrived, and report. */
  method HeadersDone(data: seq<byte>, start: nat, st: Scan, first: LineFn, rest: LineFn)
    returns (r: Result<Request, HttpError>)
    requires Consistent(data, start, st) && LineEnd(data, start, start) == Some(start + 2)
    ensures r == ScanFrom(data, start, st, first, rest)
  {
    ParseBlank(data, start, st, first, rest);
    var i := start + 2;
    var req := st.req;
    if req.contentLength > 0 {
      if i + req.contentLength > |data| {
        return Err(Incomplete);
      }
      req := req.(body := Some(data[i..i + req.contentLength]));
    }
    r := Conclude(data, st.(req := req), true);
  }

  /** A non-empty line ending at `i`: the first is the request line, every
      later one a header line, which also extends the header block. */
  method TakeLine(data: seq<byte>, start: nat, i: nat, st: Scan, first: LineFn, rest: LineFn)
    returns (r: Result<Scan, HttpError>)
    requires Consistent(data, start, st) && LineEnd(data, start, start) == Some(i) && i != start + 2
    ensures r.Err? ==> ScanFrom(data, start, st, first, rest) == Err(r.error)
    ensures r.Ok? ==> Consistent(data, i, r.value)
                      && ScanFrom(data, start, st, first, rest) == ScanFrom(data, i, r.value, first, rest)
  {
    var line := data[start..i - 2];
    if !st.requestLineDone {
      ParseRequestLine(data, start, i, st, first, rest);
      var next := first(st.req, line);
      if next.Err? {
        return Err(next.error);
      }
      return Ok(st.(req := next.value, requestLineDone := true));
    } else {
      ParseHeaderLine(data, start, i, st, first, rest);
      var next := rest(st.req, line);
      if next.Err? {
        return Err(next.error);
      }
      var headerStart := if st.headerStart == 0 then start else st.headerStart;
      return Ok(Scan(next.value, true, headerStart, i));
    }
  }

  /** After the loop of `parse`: record the header block, then report. */
  method Conclude(data: seq<byte>, st: Scan, headersDone: bool) returns (r: Result<Request, HttpError>)
    requires st.headerStart <= st.headerEnd <= |data|
    ensures r == Finish(data, st, headersDone)
  {
    var req := st.req;
    if st.headerStart != 0 && st.headerEnd != 0 {
      req := req.(headerSlice := Some(data[st.headerStart..st.headerEnd]));
    }
    if !headersDone {
      return Err(Incomplete);
    }
    if req.path == [] {
      return Err(ProtocolError("malformed HTTP request"));
    }
    return Ok(req);
  }

  /** `HttpRequest::try_from`: fewer than 15 bytes cannot be a whole request. */
  function TryFromSpec(data: seq<byte>): Result<Request, HttpError> {
    if |data| < 15 then Err(Incomplete) else ParseSpec(data)
  }

  method TryFrom(data: seq<byte>) returns (r: Result<Request, HttpError>)
    ensures |data| < 15 ==> r == Err(Incomplete)
    ensures |data| >= 15 && !ValidUtf8(data) ==> r == Err(ProtocolError("http request is not valid utf8"))
    ensures r == TryFromSpec(data)
  {
    if |data| < 15 {
      return Err(Incomplete);
    }
    r := Parse(data);
  }

  // ---------------------------------------------------------------------------
  // The end of the header block

  /** `data[..i]` ends with CRLF CRLF. */
  predicate EndsHeader(data: seq<byte>, i: nat) {
    4 <= i <= |data| && data[i - 4] == CR && data[i - 3] == LF && data[i - 2] == CR && data[i - 1] == LF
  }

  /** `contains_complete_http_header`: the length of the shortest prefix that
      ends with an empty line, if there is one. */
  method ContainsCompleteHttpHeader(data: seq<byte>) returns (r: Option<nat>)
    ensures r.Some? ==> EndsHeader(data, r.value) && forall j: nat :: j < r.value ==> !EndsHeader(data, j)
    ensures r.None? ==> forall j: nat :: !EndsHeader(data, j)
  {
    for i := 1 to |data| + 1
      invariant forall j: nat :: j < i ==> !EndsHeader(data, j)
    {
      if i >= 4 && data[i - 4] == CR && data[i - 3] == LF && data[i - 2] == CR && data[i - 1] == LF {
        return Some(i);
      }
    }
    return None;
  }

  // ---------------------------------------------------------------------------
  // Body

  datatype RequestBody = NoBody | Partial(missing: nat, bytes: seq<byte>) | Complete(bytes: seq<byte>)

  /** `get_body`: the body taken by the parser, marked partial with the number
      of bytes still missing when it is shorter than Content-Length. */
  function GetBody(req: Request): (r: RequestBody)
    ensures r.NoBody? <==> req.body.None?
    ensures r.Partial? ==>
              req.body == Some(r.bytes) && r.missing > 0 && |r.bytes| + r.missing == req.contentLength
    ensures r.Complete? ==> req.body == Some(r.bytes) && |r.bytes| >= req.contentLength
  {
    match req.body
    case None => NoBody
    case Some(b) =>
      if |b| < req.contentLength then Partial(req.contentLength - |b|, b) else Complete(b)
  }

  /** A line handler that leaves the body alone. */
  ghost predicate KeepsBody(f: LineFn) {
    forall req: Request, line: seq<byte> :: f(req, line).Ok? ==> f(req, line).value.body == req.body
  }

  /** Scanning from a state without a body, and without a path before the
      request line, succeeds only past an empty line (`data[..e]` ends with
      CRLF CRLF), and then the body is the Content-Length bytes after it. */
  lemma {:induction false} ScanOk(data: seq<byte>, start: nat, st: Scan, first: LineFn, rest: LineFn)
    requires Consistent(data, start, st) && st.req.body.None?
    requires start == 0 ==> st.req.path == []
    requires KeepsBody(first) && KeepsBody(rest)
    ensures var r := ScanFrom(data, start, st, first, rest);
      r.Ok? ==> exists e :: EndsHeader(data, e) && BodyAt(data, e, r.value)
    decreases |data| - start
  {
    match LineEnd(data, start, start)
    case None =>
    case Some(i) =>
      if i == start + 2 {
        ParseBlank(data, start, st, first, rest);
        if ScanFrom(data, start, st, first, rest).Ok? {
          assert EndsHeader(data, i) && BodyAt(data, i, ScanFrom(data, start, st, first, rest).value);
        }
      } else if !st.requestLineDone {
        ParseRequestLine(data, start, i, st, first, rest);
        var next := first(st.req, data[start..i - 2]);
        if next.Ok? {
          ScanOk(data, i, st.(req := next.value, requestLineDone := true), first, rest);
        }
      } else {
        ParseHeaderLine(data, start, i, st, first, rest);
        var next := rest(st.req, data[start..i - 2]);
        if next.Ok? {
          var hs := if st.headerStart == 0 then start else st.headerStart;
          ScanOk(data, i, Scan(next.value, true, hs, i), first, rest);
        }
      }
  }

  /** `req.body` is what follows the header that ends at `e`: nothing when
      Content-Length is 0, otherwise exactly Content-Length bytes. */
  predicate BodyAt(data: seq<byte>, e: nat, req: Request) {
    if req.contentLength == 0 then req.body.None?
    else e + req.contentLength <= |data| && req.body == Some(data[e..e + req.contentLength])
  }

  /** A request `parse` accepts ends its header with an empty line and carries
      exactly Content-Length bytes of body after it, so `get_body` never
      reports it partial. */
  lemma ParsedBody(data: seq<byte>)
    requires ParseSpec(data).Ok?
    ensures var req := ParseSpec(data).value;
      && (exists e :: EndsHeader(data, e) && BodyAt(data, e, req))
      && (req.contentLength == 0 ==> GetBody(req) == NoBody)
      && (req.contentLength > 0 ==>
            GetBody(req) == Complete(req.body.value) && |req.body.value| == req.contentLength)
  {
    assert KeepsBody(RequestLine) && KeepsBody(HeaderLine);
    ScanOk(data, 0, START, RequestLine, HeaderLine);
  }

  /** Without an empty line the parse never succeeds. */
  lemma NoHeaderEnd(data: seq<byte>)
    requires forall e :: !EndsHeader(data, e)
    ensures !ParseSpec(data).Ok?
  {
    if ParseSpec(data).Ok? {
      ParsedBody(data);
    }
  }

  /** Bytes appended after a line end do not move it. */
  lemma {:induction false} LineEndExtend(data: seq<byte>, extra: seq<byte>, start: nat, j: nat, i: nat)
    requires start <= j <= |data| && LineEnd(data, start, j) == Some(i)
    ensures LineEnd(data + extra, start, j) == Some(i)
    decreases |data| - j
  {
    var de := data + extra;
    assert EndsLine(de, start, j) == EndsLine(data, start, j) by {
      if 2 <= j {
        assert de[j - 2] == data[j - 2] && de[j - 1] == data[j - 1];
      }
    }
    if j < i {
      LineEndExtend(data, extra, start, j + 1, i);
    }
  }

  /** A scan that succeeds on `data` succeeds the same way on any extension
      of it: nothing after the body is looked at. */
  lemma {:induction false} ScanExtend(data: seq<byte>, extra: seq<byte>, start: nat, st: Scan, first: LineFn, rest: LineFn)
    requires Consistent(data, start, st) && ScanFrom(data, start, st, first, rest).Ok?
    ensures Consistent(data + extra, start, st)
    ensures ScanFrom(data + extra, start, st, first, rest) == ScanFrom(data, start, st, first, rest)
    decreases |data| - start
  {
    var de := data + extra;
    ExtendConsistent(data, extra, start, st);
    match LineEnd(data, start, start)
    case None =>
    case Some(i) =>
      LineEndExtend(data, extra, start, start, i);
      assert de[start..i - 2] == data[start..i - 2];
      if i == start + 2 {
        ExtendBlank(data, extra, start, st, first, rest);
      } else if !st.requestLineDone {
        ParseRequestLine(data, start, i, st, first, rest);
        ParseRequestLine(de, start, i, st, first, rest);
        var next := first(st.req, data[start..i - 2]);
        ScanExtend(data, extra, i, st.(req := next.value, requestLineDone := true), first, rest);
      } else {
        ParseHeaderLine(data, start, i, st, first, rest);
        ParseHeaderLine(de, start, i, st, first, rest);
        var next := rest(st.req, data[start..i - 2]);
        var hs := if st.headerStart == 0 then start else st.headerStart;
        ScanExtend(data, extra, i, Scan(next.value, true, hs, i), first, rest);
      }
  }

  lemma ExtendConsistent(data: seq<byte>, extra: seq<byte>, start: nat, st: Scan)
    requires Consistent(data, start, st)
    ensures Consistent(data + extra, start, st)
  {
    if start > 0 {
      assert (data + extra)[start - 2] == data[start - 2] && (data + extra)[start - 1] == data[start - 1];
    }
  }

  /** The empty line, on a buffer and on an extension of it. */
  lemma ExtendBlank(data: seq<byte>, extra: seq<byte>, start: nat, st: Scan, first: LineFn, rest: LineFn)
    requires Consistent(data, start, st) && Consistent(data + extra, start, st)
    requires LineEnd(data, start, start) == Some(start + 2)
    requires LineEnd(data + extra, start, start) == Some(start + 2)
    requires ScanFrom(data, start, st, first, rest).Ok?
    ensures ScanFrom(data + extra, start, st, first, rest) == ScanFrom(data, start, st, first, rest)
  {
    var de := data + extra;
    var i, cl := start + 2, st.req.contentLength;
    ParseBlank(data, start, st, first, rest);
    ParseBlank(de, start, st, first, rest);
    assert de[st.headerStart..st.headerEnd] == data[st.headerStart..st.headerEnd];
    if cl > 0 && i + cl <= |data| {
      assert de[i..i + cl] == data[i..i + cl];
    }
  }

  /** Parsing stops after the body: appending further UTF-8 text to a buffer
      that parses gives the same request, so re-parsing a growing buffer is
      harmless once it has succeeded. */
  lemma ParseExtend(data: seq<byte>, extra: seq<byte>)
    requires ParseSpec(data).Ok? && ValidUtf8(extra)
    ensures ParseSpec(data + extra) == ParseSpec(data)
  {
    ValidUtf8Append(data, extra);
    ScanExtend(data, extra, 0, START, RequestLine, HeaderLine);
  }

  // ---------------------------------------------------------------------------
  // Reference: a request as a list of lines

  /** Lines handed one after the other to `f`, stopping at the first error. */
  function Fold(f: LineFn, req: Request, lines: seq<seq<byte>>): Result<Request, HttpError>
    decreases |lines|
  {
    if lines == [] then Ok(req)
    else
      match f(req, lines[0])
      case Err(e) => Err(e)
      case Ok(r) => Fold(f, r, lines[1..])
  }

  /** Non-empty lines without CRLF inside. */
  predicate Lines(lines: seq<seq<byte>>) {
    forall i :: 0 <= i < |lines| ==> lines[i] != [] && NoCrlf(lines[i])
  }

  /** What the loop of `parse` makes of a request line, header lines and what
      follows the empty line, stated on the lines: the request line, then each
      header line in order, then Content-Length bytes of body; the header
      block is the header lines with their CRLFs. */
  function Reference(first: LineFn, rest: LineFn, line0: seq<byte>, lines: seq<seq<byte>>, tail: seq<byte>)
    : Result<Request, HttpError>
  {
    match first(INITIAL, line0)
    case Err(e) => Err(e)
    case Ok(r0) => HeadersReference(rest, r0, lines, tail)
  }

  /** The part of the reference after the request line. */
  function HeadersReference(rest: LineFn, r0: Request, lines: seq<seq<byte>>, tail: seq<byte>)
    : Result<Request, HttpError>
  {
    match Fold(rest, r0, lines)
    case Err(e) => Err(e)
    case Ok(r) =>
      var cl := r.contentLength;
      if cl > |tail| then Err(Incomplete)
      else if r.path == [] then Err(ProtocolError("malformed HTTP request"))
      else
        Ok(r.(body := if cl > 0 then Some(tail[..cl]) else r.body,
              headerSlice := if lines == [] then r.headerSlice else Some(Joined(lines))))
  }

  /** The total length of the lines with their CRLFs. */
  function Width(lines: seq<seq<byte>>): nat {
    if lines == [] then 0 else |lines[0]| + 2 + Width(lines[1..])
  }

  /** `lines` stand one after the other in `data` from `p`, each ended by the
      first CRLF after its start. */
  predicate LaidOut(data: seq<byte>, p: nat, lines: seq<seq<byte>>)
    decreases |lines|
  {
    p <= |data|
    && (lines != [] ==>
          var i := p + |lines[0]| + 2;
          && i <= |data| && LineEnd(data, p, p) == Some(i) && data[p..i - 2] == lines[0]
          && LaidOut(data, i, lines[1..]))
  }

  /** The header lines from `p` on are handed to `rest` in order; the scan
      then stands at the empty line with the header block extended over them. */
  lemma {:induction false} ScanJoined(data: seq<byte>, p: nat, lines: seq<seq<byte>>, st: Scan, first: LineFn, rest: LineFn)
    requires LaidOut(data, p, lines) && Lines(lines) && lines != []
    requires Consistent(data, p, st) && st.requestLineDone
    ensures var fold := Fold(rest, st.req, lines);
      && (fold.Err? ==> ScanFrom(data, p, st, first, rest) == Err(fold.error))
      && (fold.Ok? ==>
            var e := p + Width(lines);
            var st' := Scan(fold.value, true, if st.headerStart == 0 then p else st.headerStart, e);
            Consistent(data, e, st')
            && ScanFrom(data, p, st, first, rest) == ScanFrom(data, e, st', first, rest))
    decreases |lines|
  {
    var l := lines[0];
    var i := p + |l| + 2;
    ParseHeaderLine(data, p, i, st, first, rest);
    var next := rest(st.req, l);
    FoldStep(rest, st.req, lines);
    if next.Ok? {
      var hs := if st.headerStart == 0 then p else st.headerStart;
      if lines[1..] != [] {
        ScanJoined(data, i, lines[1..], Scan(next.value, true, hs, i), first, rest);
      }
    }
  }

  /** Bytes in front do not change a layout. */
  lemma {:induction false} LaidOutShift(pre: seq<byte>, data: seq<byte>, p: nat, lines: seq<seq<byte>>)
    requires LaidOut(data, p, lines)
    ensures LaidOut(pre + data, |pre| + p, lines)
    decreases |lines|
  {
    if lines != [] {
      var i := p + |lines[0]| + 2;
      LineEndShift(pre, data, p, p);
      assert (pre + data)[|pre| + p..|pre| + i - 2] == data[p..i - 2];
      LaidOutShift(pre, data, i, lines[1..]);
    }
  }

  /** Lines joined with CRLFs are laid out one after the other. */
  lemma {:induction false} LayoutJoined(lines: seq<seq<byte>>, tail: seq<byte>)
    requires Lines(lines)
    ensures LaidOut(Joined(lines) + tail, 0, lines)
    ensures |Joined(lines)| == Width(lines)
    decreases |lines|
  {
    if lines != [] {
      var l, j := lines[0], Joined(lines[1..]);
      assert Joined(lines) + tail == l + CRLF + (j + tail);
      FirstLine(l, j + tail);
      LayoutJoined(lines[1..], tail);
      LaidOutShift(l + CRLF, j + tail, 0, lines[1..]);
    }
  }

  lemma FoldStep(f: LineFn, req: Request, lines: seq<seq<byte>>)
    requires lines != []
    ensures f(req, lines[0]).Err? ==> Fold(f, req, lines) == Err(f(req, lines[0]).error)
    ensures f(req, lines[0]).Ok? ==> Fold(f, req, lines) == Fold(f, f(req, lines[0]).value, lines[1..])
    ensures lines[1..] == [] && f(req, lines[0]).Ok? ==> Fold(f, req, lines) == f(req, lines[0])
  {
  }

  /** The empty line at `e` and what follows it. */
  lemma ScanTail(data: seq<byte>, pre: seq<byte>, tail: seq<byte>, st: Scan, first: LineFn, rest: LineFn)
    requires data == pre + CRLF + tail && Consistent(data, |pre|, st)
    ensures var cl, e := st.req.contentLength, |pre|;
      ScanFrom(data, e, st, first, rest)
      == if cl > 0 && cl > |tail| then Err(Incomplete)
         else Finish(data, if cl > 0 then st.(req := st.req.(body := Some(tail[..cl]))) else st, true)
  {
    FirstLine([], tail);
    assert data == pre + ([] + CRLF + tail);
    LineEndShift(pre, [] + CRLF + tail, 0, 0);
    ParseBlank(data, |pre|, st, first, rest);
    var cl, i := st.req.contentLength, |pre| + 2;
    if cl > 0 && cl <= |tail| {
      assert data[i..i + cl] == tail[..cl];
    }
  }

  /** The loop agrees with the reference on every buffer made of a request
      line, header lines, an empty line and a tail. */
  lemma ScanReference(first: LineFn, rest: LineFn, line0: seq<byte>, lines: seq<seq<byte>>, tail: seq<byte>)
    requires line0 != [] && NoCrlf(line0) && Lines(lines)
    ensures ScanFrom(line0 + CRLF + Joined(lines) + CRLF + tail, 0, START, first, rest)
            == Reference(first, rest, line0, lines, tail)
  {
    var data := line0 + CRLF + Joined(lines) + CRLF + tail;
    WholeLayout(line0, lines, tail);
    ParseRequestLine(data, 0, |line0| + 2, START, first, rest);
    var r0 := first(INITIAL, line0);
    if r0.Ok? {
      ScanHeaders(line0, lines, tail, r0.value, first, rest);
    }
  }

  /** After the request line: the header lines, the empty line and the body. */
  lemma ScanHeaders(line0: seq<byte>, lines: seq<seq<byte>>, tail: seq<byte>, r0: Request, first: LineFn, rest: LineFn)
    requires line0 != [] && Lines(lines)
    requires var data, i := line0 + CRLF + Joined(lines) + CRLF + tail, |line0| + 2;
      && LaidOut(data, i, lines) && |Joined(lines)| == Width(lines)
      && data[i..i + Width(lines)] == Joined(lines)
    ensures var data, i := line0 + CRLF + Joined(lines) + CRLF + tail, |line0| + 2;
      var st1 := START.(req := r0, requestLineDone := true);
      Consistent(data, i, st1) && ScanFrom(data, i, st1, first, rest) == HeadersReference(rest, r0, lines, tail)
  {
    var head := line0 + CRLF + Joined(lines);
    var data, i := head + CRLF + tail, |line0| + 2;
    assert data[i - 2] == CR && data[i - 1] == LF;
    HeadersAfter(data, head, i, lines, tail, START.(req := r0, requestLineDone := true), first, rest);
  }

  lemma HeadersAfter(data: seq<byte>, head: seq<byte>, i: nat, lines: seq<seq<byte>>, tail: seq<byte>,
                     st1: Scan, first: LineFn, rest: LineFn)
    requires data == head + CRLF + tail && |head| == i + Width(lines) && Lines(lines)
    requires LaidOut(data, i, lines) && data[i..|head|] == Joined(lines)
    requires Consistent(data, i, st1) && st1.requestLineDone && st1.headerStart == 0 && st1.headerEnd == 0
    ensures ScanFrom(data, i, st1, first, rest) == HeadersReference(rest, st1.req, lines, tail)
  {
    var fold := Fold(rest, st1.req, lines);
    if lines == [] {
      ScanTail(data, head, tail, st1, first, rest);
    } else {
      ScanJoined(data, i, lines, st1, first, rest);
      if fold.Ok? {
        var r := fold.value;
        var st' := Scan(r, true, i, |head|);
        ScanTail(data, head, tail, st', first, rest);
        var cl := r.contentLength;
        if cl <= |tail| {
          var body := if cl > 0 then Some(tail[..cl]) else r.body;
          assert Finish(data, st'.(req := r.(body := body)), true)
                 == if r.path == [] then Err(ProtocolError("malformed HTTP request"))
                    else Ok(r.(body := body, headerSlice := Some(Joined(lines))));
        }
      }
    }
  }

  /** Where the parts of a request stand in it. */
  lemma WholeLayout(line0: seq<byte>, lines: seq<seq<byte>>, tail: seq<byte>)
    requires line0 != [] && NoCrlf(line0) && Lines(lines)
    ensures var data, i := line0 + CRLF + Joined(lines) + CRLF + tail, |line0| + 2;
      && LaidOut(data, 0, [line0] + lines) && LaidOut(data, i, lines) && |Joined(lines)| == Width(lines)
      && data[i..i + Width(lines)] == Joined(lines)
  {
    var data := line0 + CRLF + Joined(lines) + CRLF + tail;
    var all := [line0] + lines;
    assert all[0] == line0 && all[1..] == lines;
    LayoutJoined(all, CRLF + tail);
    assert Joined(all) + (CRLF + tail) == data;
    assert LaidOut(data, 0, all);
    assert Joined(all) + (CRLF + tail) == data;
    LayoutJoined(lines, tail);
    assert data[|line0| + 2..|line0| + 2 + |Joined(lines)|] == Joined(lines);
  }

  /** `parse` on a buffer made of a request line, header lines, an empty line
      and a tail. */
  lemma ParseLines(line0: seq<byte>, lines: seq<seq<byte>>, tail: seq<byte>)
    requires line0 != [] && NoCrlf(line0) && Lines(lines)
    requires ValidUtf8(line0 + CRLF + Joined(lines) + CRLF + tail)
    ensures ParseSpec(line0 + CRLF + Joined(lines) + CRLF + tail) == Reference(RequestLine, HeaderLine, line0, lines, tail)
  {
    ScanReference(RequestLine, HeaderLine, line0, lines, tail);
  }

  // ---------------------------------------------------------------------------
  // Header lookup

  /** The match in `get_header`: two unknown headers match when their names are
      equal ignoring ASCII case; any other two when they are the same variant. */
  predicate Matches(query: RequestHeader, h: RequestHeader) {
    match (query, h)
    case (Other(k1, _), Other(k2, _)) => EqIgnoreCase(k1, k2)
    case (Req(f, _), Req(g, _)) => f == g
    case (ContentLength(_), ContentLength(_)) => true
    case _ => false
  }

  /** How a header line is resolved (`resolve_header`). */
  type ResolveFn = seq<byte> -> Result<Option<RequestHeader>, HttpError>

  /** The search of `get_header` from the line that starts at `start`: the
      first line that resolves to a header matching `query`. */
  function FindFrom(data: seq<byte>, start: nat, query: RequestHeader, resolve: ResolveFn): (r: Option<RequestHeader>)
    requires start <= |data|
    ensures r.Some? ==> Matches(query, r.value)
    decreases |data| - start
  {
    match LineEnd(data, start, start)
    case None => None
    case Some(i) =>
      var res := resolve(data[start..i - 2]);
      if res.Ok? && res.value.Some? && Matches(query, res.value.value) then res.value
      else FindFrom(data, i, query, resolve)
  }

  /** The reference for `get_header`, on lines rather than bytes: the first
      line that resolves to a header matching `query`. */
  function FirstMatch(lines: seq<seq<byte>>, query: RequestHeader, resolve: ResolveFn): Option<RequestHeader> {
    if lines == [] then None
    else
      var res := resolve(lines[0]);
      if res.Ok? && res.value.Some? && Matches(query, res.value.value) then res.value
      else FirstMatch(lines[1..], query, resolve)
  }

  lemma {:induction false} FindShift(p: seq<byte>, data: seq<byte>, start: nat, query: RequestHeader, resolve: ResolveFn)
    requires start <= |data|
    ensures FindFrom(p + data, |p| + start, query, resolve) == FindFrom(data, start, query, resolve)
    decreases |data| - start
  {
    LineEndShift(p, data, start, start);
    match LineEnd(data, start, start)
    case None =>
    case Some(i) =>
      assert (p + data)[|p| + start..|p| + i - 2] == data[start..i - 2];
      FindShift(p, data, i, query, resolve);
  }

  /** `get_header` on a header block made of CRLF-terminated lines returns the
      first line that resolves to a matching header. */
  lemma {:induction false} FindLines(lines: seq<seq<byte>>, query: RequestHeader, resolve: ResolveFn)
    requires forall i :: 0 <= i < |lines| ==> NoCrlf(lines[i])
    ensures FindFrom(Joined(lines), 0, query, resolve) == FirstMatch(lines, query, resolve)
    decreases |lines|
  {
    if lines != [] {
      var more := Joined(lines[1..]);
      FirstLine(lines[0], more);
      FindShift(lines[0] + CRLF, more, 0, query, resolve);
      FindLines(lines[1..], query, resolve);
    }
  }

  /** `get_header`: nothing without a header block, otherwise the first
      matching line of it. */
  method GetHeader(req: Request, query: RequestHeader) returns (r: Option<RequestHeader>)
    ensures req.headerSlice.None? ==> r.None?
    ensures req.headerSlice.Some? ==> r == FindFrom(req.headerSlice.value, 0, query, Resolve)
  {
    if req.headerSlice.None? {
      return None;
    }
    var data := req.headerSlice.value;
    var lineStart: nat := 0;
    for i := 0 to |data| + 1
      invariant lineStart <= i && lineStart <= |data|
      invariant forall k :: lineStart <= k < i ==> !EndsLine(data, lineStart, k)
      invariant FindFrom(data, lineStart, query, Resolve) == FindFrom(data, 0, query, Resolve)
    {
      LineEndFirst(data, lineStart, i);
      if i >= lineStart + 2 && data[i - 2] == CR && data[i - 1] == LF {
        var res := Resolve(data[lineStart..i - 2]);
        if res.Ok? && res.value.Some? && Matches(query, res.value.value) {
          return res.value;
        }
        lineStart := i;
      }
      NoLineEndYet(data, lineStart, i);
    }
    LineEndFirst(data, lineStart, |data|);
    return None;
  }

  // ---------------------------------------------------------------------------
  // An example request

  /** The bytes of the example request, piece by piece. */
  lemma ExampleBytes()
    ensures Str("GET /index.html HTTP/1.1\r\nContent-Length: 3\r\n\r\nabc")
            == (MethodName(GET) + [SP] + Str("/index.html") + [SP] + Str("HTTP/1.1"))
               + CRLF + Joined([CONTENT_LENGTH + [COLON] + Str(" 3")]) + CRLF + Str("abc")
  {
    var l0, h := "GET /index.html HTTP/1.1", "Content-Length: 3";
    ExampleText();
    Str5(l0, "\r\n", h, "\r\n\r\n", "abc");
    Str5("GET", " ", "/index.html", " ", "HTTP/1.1");
    Str3("Content-Length", ":", " 3");
    assert Str("\r\n\r\n") == CRLF + CRLF && Str("\r\n") == CRLF && Str(" ") == [SP] && Str(":") == [COLON];
    var hb := CONTENT_LENGTH + [COLON] + Str(" 3");
    assert Joined([hb]) == hb + CRLF + Joined([]);
  }

  lemma ExampleText()
    ensures "GET /index.html HTTP/1.1\r\nContent-Length: 3\r\n\r\nabc"
            == "GET /index.html HTTP/1.1" + "\r\n" + "Content-Length: 3" + "\r\n\r\n" + "abc"
    ensures "GET /index.html HTTP/1.1" == "GET" + " " + "/index.html" + " " + "HTTP/1.1"
    ensures "Content-Length: 3" == "Content-Length" + ":" + " 3"
  {
    ExampleRequestText();
    ExampleLineText();
  }

  lemma ExampleRequestText()
    ensures "GET /index.html HTTP/1.1\r\nContent-Length: 3\r\n\r\nabc"
            == "GET /index.html HTTP/1.1" + "\r\n" + "Content-Length: 3" + "\r\n\r\n" + "abc"
  {
  }

  lemma ExampleLineText()
    ensures "GET /index.html HTTP/1.1" == "GET" + " " + "/index.html" + " " + "HTTP/1.1"
  {
  }

  lemma PrintableNoCrlf(s: seq<byte>)
    requires Printable(s)
    ensures NoCrlf(s) && IsAscii(s)
  {
  }

  /** The request line and the header line of the example are printable. */
  lemma ExampleLines()
    ensures Printable(MethodName(GET) + [SP] + Str("/index.html") + [SP] + Str("HTTP/1.1"))
    ensures Printable(CONTENT_LENGTH + [COLON] + Str(" 3"))
    ensures Printable(Str("abc")) && SP !in Str("/index.html")
  {
    StrVisible("GET");
    StrVisible("/index.html");
    StrVisible("HTTP/1.1");
    StrVisible("Content-Length");
    StrPrintable(" 3");
    StrVisible("abc");
    var path, version, value := Str("/index.html"), Str("HTTP/1.1"), Str(" 3");
    assert Printable([SP]) && Printable([COLON]);
    PrintableAppend(MethodName(GET), [SP]);
    PrintableAppend(MethodName(GET) + [SP], path);
    PrintableAppend(MethodName(GET) + [SP] + path, [SP]);
    PrintableAppend(MethodName(GET) + [SP] + path + [SP], version);
    PrintableAppend(CONTENT_LENGTH, [COLON]);
    PrintableAppend(CONTENT_LENGTH + [COLON], value);
  }

  lemma ExampleUtf8(line0: seq<byte>, h: seq<byte>, tail: seq<byte>)
    requires Printable(line0) && Printable(h) && IsAscii(tail)
    ensures ValidUtf8(line0 + CRLF + Joined([h]) + CRLF + tail)
  {
    var data := line0 + CRLF + Joined([h]) + CRLF + tail;
    assert Joined([h]) == h + CRLF + Joined([]);
    forall i | 0 <= i < |data| ensures data[i] < 0x80 {
      if i < |line0| { assert data[i] == line0[i]; }
      else if i < |line0| + 2 + |h| + 4 {
        if i >= |line0| + 2 && i < |line0| + 2 + |h| { assert data[i] == h[i - |line0| - 2]; }
      } else { assert data[i] == tail[i - |line0| - |h| - 6]; }
    }
    AsciiIsUtf8(data);
  }

  /** The example's header line sets Content-Length to 3. */
  lemma ExampleHeader(r0: Request)
    ensures Fold(HeaderLine, r0, [CONTENT_LENGTH + [COLON] + Str(" 3")]) == Ok(r0.(contentLength := 3))
  {
    var value := Str(" 3");
    StrVisible("Content-Length");
    assert COLON !in CONTENT_LENGTH;
    TrimNoSpace(CONTENT_LENGTH);
    assert value == Spaces(1) + Digits(3);
    AsStrDigits(1, 3);
    AtoiDigits(3);
    ContentLengthLine(r0, CONTENT_LENGTH, value);
  }

  /** A Content-Length value ending in a no-break space (U+00A0) is read
      like one ending in an ASCII space: `str::trim` strips both. */
  lemma ContentLengthNoBreakSpace(r0: Request)
    ensures HeaderLine(r0, CONTENT_LENGTH + [COLON] + Str(" 3") + [0xC2, 0xA0]) == Ok(r0.(contentLength := 3))
  {
    var value := Str(" 3") + [0xC2, 0xA0];
    ContentLengthName();
    TrimNoBreakSpaceValue();
    AtoiDigits(3);
    assert CONTENT_LENGTH + [COLON] + Str(" 3") + [0xC2, 0xA0] == CONTENT_LENGTH + [COLON] + value;
    ContentLengthLine(r0, CONTENT_LENGTH, value);
  }

  lemma ContentLengthName()
    ensures COLON !in CONTENT_LENGTH && EqIgnoreCase(Trim(CONTENT_LENGTH), CONTENT_LENGTH)
  {
    StrVisible("Content-Length");
    assert COLON !in CONTENT_LENGTH;
    TrimNoSpace(CONTENT_LENGTH);
  }

  lemma TrimNoBreakSpaceValue()
    ensures Trim(Str(" 3") + [0xC2, 0xA0]) == Digits(3)
  {
    var value := Str(" 3") + [0xC2, 0xA0];
    assert Str(" 3") == Spaces(1) + Digits(3);
    assert value == [SP] + (Digits(3) + [0xC2, 0xA0]);
    assert SpaceAt(value, 0) == 1 && SpaceAt(value, 1) == 0;
    assert TrimStart(value) == Digits(3) + [0xC2, 0xA0];
    TrimNoBreakSpace(Digits(3));
  }

  /** The example of the parser's own test: a GET of "/index.html" with a
      three-byte body "abc". */
  lemma ParseExample()
    ensures var r := ParseSpec(Str("GET /index.html HTTP/1.1\r\nContent-Length: 3\r\n\r\nabc"));
      && r.Ok? && r.value.httpMethod == GET && r.value.path == Str("/index.html")
      && r.value.contentLength == 3 && r.value.body == Some(Str("abc"))
  {
    var path, version, tail := Str("/index.html"), Str("HTTP/1.1"), Str("abc");
    var line0 := MethodName(GET) + [SP] + path + [SP] + version;
    var h := CONTENT_LENGTH + [COLON] + Str(" 3");
    ExampleBytes();
    ExampleLines();
    PrintableNoCrlf(line0);
    PrintableNoCrlf(h);
    PrintableNoCrlf(tail);
    ExampleUtf8(line0, h, tail);
    ParseLines(line0, [h], tail);
    RequestLineWords(INITIAL, GET, path, version);
    ExampleHeader(INITIAL.(httpMethod := GET, path := path));
    assert tail[..3] == tail;
  }
}
