/** The standalone `http` crate's request parser (http/src/lib.rs), the
    generation before the doorctrl HTTP stack: three header slots that hold
    only Content-Length, Upgrade and Sec-WebSocket-Key, and a line scanner
    that the crate's generic parser (http/src/request.rs) shares. */
module HttpCrate {
  import opened Common
  import opened Ascii

  datatype HttpMethod = GET | POST | PUT | PATCH | DELETE | OPTIONS

  function MethodName(m: HttpMethod): seq<byte> {
    match m
    case GET => Str("GET")
    case POST => Str("POST")
    case PUT => Str("PUT")
    case PATCH => Str("PATCH")
    case DELETE => Str("DELETE")
    case OPTIONS => Str("OPTIONS")
  }

  /** `HttpMethod::try_from`: exact, case-sensitive match on the six names;
      there is no HEAD. */
  function MethodFrom(word: seq<byte>): (r: Option<HttpMethod>)
    ensures r.Some? ==> MethodName(r.value) == word
  {
    if word == Str("GET") then Some(GET)
    else if word == Str("POST") then Some(POST)
    else if word == Str("PUT") then Some(PUT)
    else if word == Str("PATCH") then Some(PATCH)
    else if word == Str("DELETE") then Some(DELETE)
    else if word == Str("OPTIONS") then Some(OPTIONS)
    else None
  }

  /** Every method name is recognised as that method. */
  lemma MethodRoundTrip(m: HttpMethod)
    ensures MethodFrom(MethodName(m)) == Some(m)
  {
    assert Str("GET")[0] != Str("POST")[0] && Str("GET")[0] != Str("PUT")[0];
    assert Str("POST")[1] != Str("PUT")[1];
    assert Str("PATCH")[0] != Str("DELETE")[0];
    assert Str("OPTIONS")[0] != Str("DELETE")[0];
  }

  /** "HEAD" is not a method of this crate. */
  lemma NoHead()
    ensures MethodFrom(Str("HEAD")) == None
  {
    assert Str("HEAD")[0] != Str("GET")[0];
  }

  /** Every method name begins with one of 'G', 'P', 'D', 'O'. */
  lemma MethodInitial(m: HttpMethod)
    ensures |MethodName(m)| >= 3 && SP !in MethodName(m) && COLON !in MethodName(m)
    ensures CR !in MethodName(m) && IsAscii(MethodName(m))
    ensures MethodName(m)[0] in {71, 80, 68, 79}
  {
    var n := MethodName(m);
    forall i | 0 <= i < |n| ensures n[i] != SP && n[i] != COLON && n[i] != CR && n[i] < 0x80 {
      match m
      case GET => StrAt("GET", i);
      case POST => StrAt("POST", i);
      case PUT => StrAt("PUT", i);
      case PATCH => StrAt("PATCH", i);
      case DELETE => StrAt("DELETE", i);
      case OPTIONS => StrAt("OPTIONS", i);
    }
  }

  // ---------------------------------------------------------------------------
  // Headers

  const UPGRADE: seq<byte> := Str("Upgrade")
  const CONTENT_LENGTH: seq<byte> := Str("Content-Length")
  const SEC_WEBSOCKET_KEY: seq<byte> := Str("Sec-WebSocket-Key")

  /** A header slot: one of the three headers the crate keeps, or empty. */
  datatype Header = ContentLength(length: nat) | Upgrade(value: seq<byte>) | SecWebSocketKey(value: seq<byte>) | Null

  /** `HttpHeader::try_from((name, value))`, names compared ignoring ASCII
      case: `Err(None)` for a header the crate does not keep,
      `Err(Some(..))` for a Content-Length that is not a number. */
  function HeaderFrom(name: seq<byte>, value: seq<byte>): (r: Result<Header, Option<string>>)
    ensures r.Ok? ==> r.value != Null
    ensures r == Err(None) <==>
              !EqIgnoreCase(name, CONTENT_LENGTH) && !EqIgnoreCase(name, UPGRADE) && !EqIgnoreCase(name, SEC_WEBSOCKET_KEY)
    ensures r.Err? && r.error.Some? <==> EqIgnoreCase(name, CONTENT_LENGTH) && AtoiSpec(value).None?
    ensures r.Err? && r.error.Some? ==> r.error.value == "invalid content-length"
    ensures r.Ok? && r.value.ContentLength? ==> AtoiSpec(value) == Some(r.value.length)
    ensures r.Ok? && !r.value.ContentLength? ==> r.value.value == value
  {
    if EqIgnoreCase(name, CONTENT_LENGTH) then
      match AtoiSpec(value)
      case None => Err(Some("invalid content-length"))
      case Some(n) => Ok(ContentLength(n))
    else if EqIgnoreCase(name, UPGRADE) then Ok(Upgrade(value))
    else if EqIgnoreCase(name, SEC_WEBSOCKET_KEY) then Ok(SecWebSocketKey(value))
    else Err(None)
  }

  /** The three names differ ignoring case, so each header name is kept as
      its own kind. */
  lemma HeaderFromKinds(name: seq<byte>, value: seq<byte>)
    ensures EqIgnoreCase(name, UPGRADE) ==> HeaderFrom(name, value) == Ok(Upgrade(value))
    ensures EqIgnoreCase(name, SEC_WEBSOCKET_KEY) ==> HeaderFrom(name, value) == Ok(SecWebSocketKey(value))
    ensures EqIgnoreCase(name, CONTENT_LENGTH) && AtoiSpec(value).Some? ==>
              HeaderFrom(name, value) == Ok(ContentLength(AtoiSpec(value).value))
  {
    assert |UPGRADE| == 7 && |CONTENT_LENGTH| == 14 && |SEC_WEBSOCKET_KEY| == 17;
  }

  const SLOTS: nat := 3

  datatype Request = Request(httpMethod: HttpMethod, path: seq<byte>, headers: seq<Header>)

  /** The request `parse_request` starts from: GET, no path, empty slots. */
  const INITIAL: Request := Request(GET, [], [Null, Null, Null])

  datatype HttpError = NotReady | ProtocolErr(msg: string)

  /** `parse_request_line`: `splitn(3, ' ')`; the first word must be a
      method, the second becomes the path, the rest is ignored. */
  function RequestLine(req: Request, line: seq<byte>): (r: Result<Request, HttpError>)
    ensures r.Err? ==> r.error == ProtocolErr("unknown http method")
    ensures r.Ok? ==> r.value.headers == req.headers
    ensures r.Ok? ==> MethodName(r.value.httpMethod) == SplitOnce(line, SP).0
  {
    var (w0, rest) := SplitOnce(line, SP);
    match MethodFrom(w0)
    case None => Err(ProtocolErr("unknown http method"))
    case Some(m) =>
      match rest
      case None => Ok(req.(httpMethod := m))
      case Some(r) => Ok(req.(httpMethod := m, path := SplitOnce(r, SP).0))
  }

  /** The index of the first empty slot at or after `i`. */
  function FirstNull(hs: seq<Header>, i: nat): (r: Option<nat>)
    requires i <= |hs|
    ensures r.Some? ==> i <= r.value < |hs| && hs[r.value] == Null
                        && forall k :: i <= k < r.value ==> hs[k] != Null
    ensures r.None? ==> forall k :: i <= k < |hs| ==> hs[k] != Null
    decreases |hs| - i
  {
    if i == |hs| then None
    else if hs[i] == Null then Some(i)
    else FirstNull(hs, i + 1)
  }

  /** `parse_header_line`: split at the first ':', trim both halves. A line
      with a value goes through `HttpHeader::try_from` only when a slot is
      empty, and a kept header fills the first empty slot; otherwise the line
      is dropped, an invalid Content-Length included. */
  function HeaderLine(req: Request, line: seq<byte>): (r: Result<Request, HttpError>)
    ensures r.Err? ==> r.error == ProtocolErr("invalid content-length")
    ensures r.Ok? ==> r.value.httpMethod == req.httpMethod && r.value.path == req.path
    ensures r.Ok? ==> |r.value.headers| == |req.headers|
    ensures r.Ok? ==> forall k :: 0 <= k < |req.headers| && Some(k) != FirstNull(req.headers, 0) ==>
                        r.value.headers[k] == req.headers[k]
  {
    var (name, value) := SplitOnce(line, COLON);
    match value
    case None => Ok(req)
    case Some(v) =>
      match FirstNull(req.headers, 0)
      case None => Ok(req)
      case Some(i) =>
        match HeaderFrom(Trim(name), Trim(v))
        case Ok(h) => Ok(req.(headers := req.headers[i := h]))
        case Err(None) => Ok(req)
        case Err(Some(e)) => Err(ProtocolErr(e))
  }

  /** With every slot taken a header line changes nothing and cannot fail. */
  lemma HeaderLineFull(req: Request, line: seq<byte>)
    requires forall k :: 0 <= k < |req.headers| ==> req.headers[k] != Null
    ensures HeaderLine(req, line) == Ok(req)
  {
  }

  /** Splitting at the first separator finds the one after `a` when `a`
      holds none. */
  lemma SplitAtFirst(a: seq<byte>, sep: byte, b: seq<byte>)
    requires sep !in a
    ensures SplitOnce(a + [sep] + b, sep) == (a, Some(b))
  {
    var s := a + [sep] + b;
    assert s[|a|] == sep && s[..|a|] == a && s[|a| + 1..] == b;
    var i := IndexOf(s, sep).value;
    assert forall k :: 0 <= k < |a| ==> s[k] == a[k];
    assert i <= |a| ==> s[..i] == a[..i];
  }

  /** With a free slot, "name: value" fills the first one with the header it
      names, if the crate keeps it. */
  lemma HeaderLineFills(req: Request, name: seq<byte>, value: seq<byte>, i: nat)
    requires COLON !in name && FirstNull(req.headers, 0) == Some(i)
    ensures HeaderFrom(Trim(name), Trim(value)).Ok? ==>
              HeaderLine(req, name + [COLON] + value)
              == Ok(req.(headers := req.headers[i := HeaderFrom(Trim(name), Trim(value)).value]))
    ensures HeaderFrom(Trim(name), Trim(value)) == Err(None) ==> HeaderLine(req, name + [COLON] + value) == Ok(req)
  {
    SplitAtFirst(name, COLON, value);
  }

  /** The first line is both the request line and a header line. */
  function FirstLine(req: Request, line: seq<byte>): Result<Request, HttpError> {
    match RequestLine(req, line)
    case Err(e) => Err(e)
    case Ok(r) => HeaderLine(r, line)
  }

  /** Trimming keeps the first byte when it is visible ASCII. */
  lemma {:induction false} SkipBackKeepsFirst(s: seq<byte>, j: nat)
    requires 1 <= j <= |s| && s[0] < 0x80 && !IsSpace(s[0])
    ensures SkipSpacesBack(s, j) >= 1
    decreases j
  {
    var n := SpaceBefore(s, j);
    if n > 0 {
      assert j - n >= 1;
      SkipBackKeepsFirst(s, j - n);
    }
  }

  lemma TrimKeepsFirst(s: seq<byte>)
    requires s != [] && s[0] < 0x80 && !IsSpace(s[0])
    ensures Trim(s) != [] && Trim(s)[0] == s[0]
  {
    assert SpaceAt(s, 0) == 0;
    assert TrimStart(s) == s;
    SkipBackKeepsFirst(s, |s|);
  }

  /** Passing the request line to the header parser as well is harmless: a
      line that starts with a method name never names a kept header. */
  lemma RequestLineKeepsSlots(req: Request, line: seq<byte>)
    requires RequestLine(req, line).Ok?
    ensures FirstLine(req, line) == RequestLine(req, line)
  {
    var r := RequestLine(req, line).value;
    var w0 := SplitOnce(line, SP).0;
    MethodInitial(r.httpMethod);
    var (name, value) := SplitOnce(line, COLON);
    if value.Some? {
      FirstByte(line, SP);
      FirstByte(line, COLON);
      TrimKeepsFirst(name);
      NotAHeader(Trim(name), Trim(value.value));
    }
  }

  /** A line that does not start with `sep` starts with the same byte as the
      part before the first `sep`. */
  lemma FirstByte(line: seq<byte>, sep: byte)
    requires SplitOnce(line, sep).0 != []
    ensures line != [] && line[0] == SplitOnce(line, sep).0[0]
  {
    var (a, b) := SplitOnce(line, sep);
    if b.Some? {
      assert line == a + [sep] + b.value;
    }
  }

  /** A name starting with a method's first letter is none of the three kept
      headers. */
  lemma NotAHeader(t: seq<byte>, v: seq<byte>)
    requires t != [] && t[0] in {71, 80, 68, 79}
    ensures HeaderFrom(t, v) == Err(None)
  {
    assert Lower(t[0]) in {103, 112, 100, 111};
    assert CONTENT_LENGTH[0] == 67 && UPGRADE[0] == 85 && SEC_WEBSOCKET_KEY[0] == 83;
  }

  // ---------------------------------------------------------------------------
  // Line scanning

  /** `data[start..i]` ends with CRLF. */
  predicate EndsLine(data: seq<byte>, start: nat, i: nat) {
    start + 2 <= i <= |data| && data[i - 2] == CR && data[i - 1] == LF
  }

  /** The first end of a line starting at `start`, searching `j` up to but not
      including `|data|`: the scan stops one short of the end. */
  function LineEnd(data: seq<byte>, start: nat, j: nat): (r: Option<nat>)
    ensures r.Some? ==>
              j <= r.value < |data| && EndsLine(data, start, r.value)
              && forall k :: j <= k < r.value ==> !EndsLine(data, start, k)
    ensures r.None? ==> forall k :: j <= k < |data| ==> !EndsLine(data, start, k)
    decreases |data| - j
  {
    if j >= |data| then None
    else if EndsLine(data, start, j) then Some(j)
    else LineEnd(data, start, j + 1)
  }

  lemma {:induction false} LineEndFrom(data: seq<byte>, start: nat, j: nat, i: nat)
    requires j <= i && forall k :: j <= k < i ==> !EndsLine(data, start, k)
    ensures LineEnd(data, start, j) == LineEnd(data, start, i)
    decreases i - j
  {
    if j < i && j < |data| {
      LineEndFrom(data, start, j + 1, i);
    }
  }

  /** The lines the scan hands on, from `start`: each ends with CRLF, and a
      CRLF that ends at the very end of `data` (the empty line closing the
      header block) is never reached. */
  function LinesFrom(data: seq<byte>, start: nat): seq<seq<byte>>
    decreases |data| - start
  {
    match LineEnd(data, start, start)
    case None => []
    case Some(i) => [data[start..i - 2]] + LinesFrom(data, i)
  }

  /** Folding the line handlers over `lines`: `first` for the first line,
      `rest` for the others; the first error ends the fold. */
  function Fold<R, E>(first: (R, seq<byte>) -> Result<R, E>, rest: (R, seq<byte>) -> Result<R, E>,
                      r: R, lines: seq<seq<byte>>, isFirst: bool): Result<R, E>
    decreases |lines|
  {
    if lines == [] then Ok(r)
    else
      match (if isFirst then first(r, lines[0]) else rest(r, lines[0]))
      case Err(e) => Err(e)
      case Ok(r') => Fold(first, rest, r', lines[1..], false)
  }

  /** The line loop of `parse_request`: the bytes since the last line end
      are a line as soon as they end with CRLF; the first line goes to
      `first`, every later one to `rest`, and an error returns at once. */
  method ScanLines<R, E>(data: seq<byte>, init: R,
                         first: (R, seq<byte>) -> Result<R, E>, rest: (R, seq<byte>) -> Result<R, E>)
    returns (res: Result<R, E>)
    ensures res == Fold(first, rest, init, LinesFrom(data, 0), true)
  {
    var req := init;
    var requestLineDone := false;
    var lineStart := 0;
    for i := 0 to |data|
      invariant lineStart <= i
      invariant forall k :: lineStart <= k < i ==> !EndsLine(data, lineStart, k)
      invariant Fold(first, rest, init, LinesFrom(data, 0), true)
                == Fold(first, rest, req, LinesFrom(data, lineStart), !requestLineDone)
    {
      if i >= lineStart + 2 && data[i - 2] == CR && data[i - 1] == LF {
        var line := data[lineStart..i - 2];
        LineEndFrom(data, lineStart, lineStart, i);
        assert LinesFrom(data, lineStart) == [line] + LinesFrom(data, i);
        var step := if !requestLineDone then first(req, line) else rest(req, line);
        if step.Err? {
          return Err(step.error);
        }
        req := step.value;
        requestLineDone := true;
        lineStart := i;
      }
    }
    LineEndFrom(data, lineStart, lineStart, |data|);
    return Ok(req);
  }

  /** A line, CRLF, and more bytes: the line comes first and the scan goes on
      with the rest. */
  lemma LinesCons(line: seq<byte>, more: seq<byte>)
    requires NoCrlf(line) && more != []
    ensures LinesFrom(line + CRLF + more, 0) == [line] + LinesFrom(more, 0)
  {
    var data := line + CRLF + more;
    var e := |line| + 2;
    forall k | 0 <= k < e
      ensures !EndsLine(data, 0, k)
    {
      if 2 <= k {
        if k <= |line| {
          assert data[k - 2] == line[k - 2] && data[k - 1] == line[k - 1];
        } else {
          assert data[k - 1] == CR;
        }
      }
    }
    assert EndsLine(data, 0, e);
    LineEndFrom(data, 0, 0, e);
    assert data[..e - 2] == line;
    LinesShift(line + CRLF, more, 0);
  }

  /** `line` holds no CR immediately followed by LF. */
  predicate NoCrlf(line: seq<byte>) {
    forall k :: 0 <= k < |line| - 1 ==> !(line[k] == CR && line[k + 1] == LF)
  }

  lemma {:induction false} LineEndShift(p: seq<byte>, d: seq<byte>, start: nat, j: nat)
    requires start <= j
    ensures LineEnd(p + d, |p| + start, |p| + j)
            == match LineEnd(d, start, j) case None => None case Some(i) => Some(|p| + i)
    decreases |d| - j
  {
    var data := p + d;
    if j < |d| {
      assert EndsLine(data, |p| + start, |p| + j) == EndsLine(d, start, j) by {
        if start + 2 <= j {
          assert data[|p| + j - 2] == d[j - 2] && data[|p| + j - 1] == d[j - 1];
        }
      }
      LineEndShift(p, d, start, j + 1);
    }
  }

  /** Bytes before `start` do not change the lines from `start`. */
  lemma {:induction false} LinesShift(p: seq<byte>, d: seq<byte>, start: nat)
    ensures LinesFrom(p + d, |p| + start) == LinesFrom(d, start)
    decreases |d| - start
  {
    LineEndShift(p, d, start, start);
    var e := LineEnd(d, start, start);
    if e.Some? {
      var i := e.value;
      assert LineEnd(p + d, |p| + start, |p| + start) == Some(|p| + i);
      SliceShift(p, d, start, i - 2);
      LinesShift(p, d, i);
      assert LinesFrom(p + d, |p| + start) == [d[start..i - 2]] + LinesFrom(p + d, |p| + i);
    }
  }

  lemma SliceShift(p: seq<byte>, d: seq<byte>, a: nat, b: nat)
    requires a <= b <= |d|
    ensures (p + d)[|p| + a..|p| + b] == d[a..b]
  {
  }

  /** The lines of a header block, each followed by CRLF, then the empty
      line: exactly those lines are scanned. */
  function Block(lines: seq<seq<byte>>): seq<byte> {
    if lines == [] then CRLF else lines[0] + CRLF + Block(lines[1..])
  }

  lemma {:induction false} LinesOfBlock(lines: seq<seq<byte>>)
    requires forall k :: 0 <= k < |lines| ==> NoCrlf(lines[k])
    ensures LinesFrom(Block(lines), 0) == lines
    decreases |lines|
  {
    if lines == [] {
      assert !EndsLine(CRLF, 0, 0) && !EndsLine(CRLF, 0, 1);
    } else {
      LinesOfBlock(lines[1..]);
      LinesCons(lines[0], Block(lines[1..]));
    }
  }

  // ---------------------------------------------------------------------------
  // Parsing

  function ParseSpec(data: seq<byte>): Result<Request, HttpError> {
    if !ValidUtf8(data) then Err(ProtocolErr("http request is not valid utf8"))
    else
      match Fold(FirstLine, HeaderLine, INITIAL, LinesFrom(data, 0), true)
      case Err(e) => Err(e)
      case Ok(req) => if req.path != [] then Ok(req) else Err(ProtocolErr("malformed HTTP request"))
  }

  /** `parse_request`: valid UTF-8, then the lines, then a path is required. */
  method ParseRequest(data: seq<byte>) returns (r: Result<Request, HttpError>)
    ensures r == ParseSpec(data)
  {
    if !ValidUtf8(data) {
      return Err(ProtocolErr("http request is not valid utf8"));
    }
    var scanned := ScanLines(data, INITIAL, FirstLine, HeaderLine);
    if scanned.Err? {
      return Err(scanned.error);
    }
    var req := scanned.value;
    if req.path != [] {
      return Ok(req);
    }
    return Err(ProtocolErr("malformed HTTP request"));
  }

  /** The slots stay three and the only errors are the ones named. */
  lemma {:induction false} FoldKeepsSlots(r: Request, lines: seq<seq<byte>>, isFirst: bool)
    requires |r.headers| == SLOTS
    ensures var f := Fold(FirstLine, HeaderLine, r, lines, isFirst);
            && (f.Ok? ==> |f.value.headers| == SLOTS)
            && (f.Err? ==> f.error in {ProtocolErr("unknown http method"), ProtocolErr("invalid content-length")})
    decreases |lines|
  {
    if lines != [] {
      var s := if isFirst then FirstLine(r, lines[0]) else HeaderLine(r, lines[0]);
      if s.Ok? {
        FoldKeepsSlots(s.value, lines[1..], false);
      }
    }
  }

  /** A parsed request always has its path and three slots, and a request is
      refused only for the reasons `parse_request` names. */
  lemma ParseOutcome(data: seq<byte>)
    ensures ParseSpec(data).Ok? ==> ParseSpec(data).value.path != [] && |ParseSpec(data).value.headers| == SLOTS
    ensures ParseSpec(data).Err? ==> ParseSpec(data).error in {
              ProtocolErr("http request is not valid utf8"), ProtocolErr("unknown http method"),
              ProtocolErr("invalid content-length"), ProtocolErr("malformed HTTP request")}
  {
    FoldKeepsSlots(INITIAL, LinesFrom(data, 0), true);
  }

  // ---------------------------------------------------------------------------
  // The end of the header block

  /** `data[..i]` ends with CRLF CRLF. */
  predicate EndsHeader(data: seq<byte>, i: nat) {
    4 <= i <= |data| && data[i - 4] == CR && data[i - 3] == LF && data[i - 2] == CR && data[i - 1] == LF
  }

  /** The length of the shortest prefix of `data` that ends with an empty
      line, searching from `j`. */
  function HeaderEnd(data: seq<byte>, j: nat): (r: Option<nat>)
    ensures r.Some? ==> j <= r.value <= |data| && EndsHeader(data, r.value)
                        && forall k :: j <= k < r.value ==> !EndsHeader(data, k)
    ensures r.None? ==> forall k :: j <= k <= |data| ==> !EndsHeader(data, k)
    decreases |data| + 1 - j
  {
    if j > |data| then None
    else if EndsHeader(data, j) then Some(j)
    else HeaderEnd(data, j + 1)
  }

  lemma {:induction false} HeaderEndFrom(data: seq<byte>, j: nat, i: nat)
    requires j <= i && forall k :: j <= k < i ==> !EndsHeader(data, k)
    ensures HeaderEnd(data, j) == HeaderEnd(data, i)
    decreases i - j
  {
    if j < i && j <= |data| {
      HeaderEndFrom(data, j + 1, i);
    }
  }

  function TryFromSpec(value: seq<byte>): Result<Request, HttpError> {
    if |value| < 15 then Err(NotReady)
    else match HeaderEnd(value, 1)
      case None => Err(NotReady)
      case Some(i) => ParseSpec(value[..i])
  }

  /** `HttpRequest::try_from`: fewer than 15 bytes cannot be a request;
      otherwise parse the shortest prefix that ends the header block, or
      wait for more. */
  method TryFrom(value: seq<byte>) returns (r: Result<Request, HttpError>)
    ensures r == TryFromSpec(value)
  {
    var len := |value|;
    if len < 15 {
      return Err(NotReady);
    }
    for i := 1 to len + 1
      invariant forall k :: 1 <= k < i ==> !EndsHeader(value, k)
    {
      if i >= 4 && value[i - 4] == CR && value[i - 3] == LF && value[i - 2] == CR && value[i - 1] == LF {
        HeaderEndFrom(value, 1, i);
        r := ParseRequest(value[..i]);
        return;
      }
    }
    HeaderEndFrom(value, 1, len + 1);
    return Err(NotReady);
  }

  /** Bytes after the end of the header block (the rest of a zeroed receive
      buffer, a body) do not change the result. */
  lemma TryFromIgnoresTail(value: seq<byte>, tail: seq<byte>)
    requires |value| >= 15 && HeaderEnd(value, 1).Some?
    ensures TryFromSpec(value + tail) == TryFromSpec(value)
  {
    var i := HeaderEnd(value, 1).value;
    var v := value + tail;
    forall k | 1 <= k < i
      ensures !EndsHeader(v, k)
    {
      assert !EndsHeader(value, k);
      if k >= 4 {
        assert v[k - 4] == value[k - 4] && v[k - 1] == value[k - 1];
        assert v[k - 3] == value[k - 3] && v[k - 2] == value[k - 2];
      }
    }
    assert EndsHeader(v, i);
    HeaderEndFrom(v, 1, i);
    assert v[..i] == value[..i];
  }

  /** Without an empty line the parser waits for more bytes. */
  lemma TryFromWaits(value: seq<byte>)
    requires forall k :: 1 <= k <= |value| ==> !EndsHeader(value, k)
    ensures TryFromSpec(value) == Err(NotReady)
  {
  }

  // ---------------------------------------------------------------------------
  // Reading the slots

  datatype Kind = LengthKind | UpgradeKind | KeyKind

  predicate IsKind(h: Header, k: Kind) {
    match k
    case LengthKind => h.ContentLength?
    case UpgradeKind => h.Upgrade?
    case KeyKind => h.SecWebSocketKey?
  }

  /** The index of the first slot at or after `i` holding a header of kind `k`. */
  function FirstOf(hs: seq<Header>, k: Kind, i: nat): (r: Option<nat>)
    requires i <= |hs|
    ensures r.Some? ==> i <= r.value < |hs| && IsKind(hs[r.value], k)
                        && forall j :: i <= j < r.value ==> !IsKind(hs[j], k)
    ensures r.None? ==> forall j :: i <= j < |hs| ==> !IsKind(hs[j], k)
    decreases |hs| - i
  {
    if i == |hs| then None
    else if IsKind(hs[i], k) then Some(i)
    else FirstOf(hs, k, i + 1)
  }

  /** What `content_len` answers. */
  function LengthOf(req: Request): nat {
    match FirstOf(req.headers, LengthKind, 0)
    case None => 0
    case Some(i) => req.headers[i].length
  }

  /** What `get_header` answers for the Upgrade or Sec-WebSocket-Key name. */
  function Lookup(req: Request, k: Kind): (r: Option<seq<byte>>)
    requires k != LengthKind
    ensures r.Some? <==> exists i :: 0 <= i < |req.headers| && IsKind(req.headers[i], k)
  {
    match FirstOf(req.headers, k, 0)
    case None => None
    case Some(i) => Some(req.headers[i].value)
  }

  /** `content_len`: the length in the first Content-Length slot, else 0. */
  method ContentLen(req: Request) returns (n: nat)
    ensures n == LengthOf(req)
    ensures FirstOf(req.headers, LengthKind, 0).None? ==> n == 0
    ensures FirstOf(req.headers, LengthKind, 0).Some? ==>
              req.headers[FirstOf(req.headers, LengthKind, 0).value] == ContentLength(n)
  {
    for i := 0 to |req.headers|
      invariant FirstOf(req.headers, LengthKind, 0) == FirstOf(req.headers, LengthKind, i)
    {
      if req.headers[i].ContentLength? {
        return req.headers[i].length;
      }
    }
    return 0;
  }

  /** `get_header`: only "Sec-WebSocket-Key" and "Upgrade" (exactly) are
      answered, from the first slot of that kind. */
  method GetHeader(req: Request, name: seq<byte>) returns (r: Option<seq<byte>>)
    ensures name != SEC_WEBSOCKET_KEY && name != UPGRADE ==> r == None
    ensures name == SEC_WEBSOCKET_KEY ==> r == Lookup(req, KeyKind)
    ensures name == UPGRADE ==> r == Lookup(req, UpgradeKind)
    ensures name == SEC_WEBSOCKET_KEY ==>
              match FirstOf(req.headers, KeyKind, 0)
              case None => r == None
              case Some(i) => r == Some(req.headers[i].value)
    ensures name == UPGRADE ==>
              match FirstOf(req.headers, UpgradeKind, 0)
              case None => r == None
              case Some(i) => r == Some(req.headers[i].value)
  {
    assert SEC_WEBSOCKET_KEY != UPGRADE by {
      assert |SEC_WEBSOCKET_KEY| != |UPGRADE|;
    }
    for i := 0 to |req.headers|
      invariant name == SEC_WEBSOCKET_KEY ==> FirstOf(req.headers, KeyKind, 0) == FirstOf(req.headers, KeyKind, i)
      invariant name == UPGRADE ==> FirstOf(req.headers, UpgradeKind, 0) == FirstOf(req.headers, UpgradeKind, i)
    {
      var h := req.headers[i];
      if name == SEC_WEBSOCKET_KEY {
        if h.SecWebSocketKey? {
          return Some(h.value);
        }
      } else if name == UPGRADE {
        if h.Upgrade? {
          return Some(h.value);
        }
      }
    }
    return None;
  }

  // ---------------------------------------------------------------------------
  // A request with a body length

  /** The request line `<method> <path> HTTP/1.1`. */
  function RequestLineOf(m: HttpMethod, path: seq<byte>): seq<byte> {
    MethodName(m) + [SP] + (path + [SP] + Str("HTTP/1.1"))
  }

  /** The header line `Content-Length: <n>`. */
  function LengthLine(n: nat): seq<byte> {
    CONTENT_LENGTH + [COLON] + ([SP] + Digits(n))
  }

  lemma NoCrNoCrlf(s: seq<byte>)
    requires CR !in s
    ensures NoCrlf(s)
  {
    assert forall k :: 0 <= k < |s| ==> s[k] != CR;
  }

  lemma {:induction false} BlockAscii(lines: seq<seq<byte>>)
    requires forall k :: 0 <= k < |lines| ==> IsAscii(lines[k])
    ensures IsAscii(Block(lines))
    decreases |lines|
  {
    if lines != [] {
      BlockAscii(lines[1..]);
      var a, b := lines[0] + CRLF, Block(lines[1..]);
      assert forall i :: 0 <= i < |a| ==> (a + b)[i] == a[i];
      assert forall i :: |a| <= i < |a + b| ==> (a + b)[i] == b[i - |a|];
    }
  }

  lemma RequestLineShape(m: HttpMethod, path: seq<byte>)
    requires IsAscii(path) && CR !in path
    ensures NoCrlf(RequestLineOf(m, path)) && IsAscii(RequestLineOf(m, path))
  {
    var l1 := RequestLineOf(m, path);
    StrVisible("HTTP/1.1");
    MethodInitial(m);
    var a, b := MethodName(m) + [SP], path + [SP] + Str("HTTP/1.1");
    assert forall i :: 0 <= i < |a| ==> (a + b)[i] == a[i];
    assert forall i :: |a| <= i < |a + b| ==> (a + b)[i] == b[i - |a|];
    NoCrNoCrlf(l1);
  }

  lemma RequestLineOfParses(m: HttpMethod, path: seq<byte>)
    requires IsAscii(path) && SP !in path && CR !in path
    ensures NoCrlf(RequestLineOf(m, path)) && IsAscii(RequestLineOf(m, path))
    ensures FirstLine(INITIAL, RequestLineOf(m, path)) == Ok(Request(m, path, [Null, Null, Null]))
  {
    var version := Str("HTTP/1.1");
    var l1 := RequestLineOf(m, path);
    RequestLineShape(m, path);
    MethodInitial(m);
    SplitAtFirst(MethodName(m), SP, path + [SP] + version);
    SplitAtFirst(path, SP, version);
    MethodRoundTrip(m);
    assert RequestLine(INITIAL, l1) == Ok(Request(m, path, [Null, Null, Null]));
    RequestLineKeepsSlots(INITIAL, l1);
  }

  lemma LengthLineShape(n: nat)
    ensures NoCrlf(LengthLine(n)) && IsAscii(LengthLine(n))
    ensures COLON !in CONTENT_LENGTH
  {
    var d := Digits(n);
    var l2 := LengthLine(n);
    StrVisible("Content-Length");
    assert forall i :: 0 <= i < |d| ==> IsDigit(d[i]);
    var a, b := CONTENT_LENGTH + [COLON], [SP] + d;
    assert forall i :: 0 <= i < |a| ==> (a + b)[i] == a[i];
    assert forall i :: |a| <= i < |a + b| ==> (a + b)[i] == b[i - |a|];
    NoCrNoCrlf(l2);
  }

  /** Trimming the two halves of the Content-Length line. */
  lemma LengthTrim(n: nat)
    ensures Trim(CONTENT_LENGTH) == CONTENT_LENGTH && Trim([SP] + Digits(n)) == Digits(n)
  {
    StrVisible("Content-Length");
    TrimNoSpace(CONTENT_LENGTH);
    assert Spaces(1) == [SP];
    AsStrDigits(1, n);
  }

  lemma LengthHeader(n: nat)
    requires n < U32
    ensures HeaderFrom(Trim(CONTENT_LENGTH), Trim([SP] + Digits(n))) == Ok(ContentLength(n))
  {
    LengthTrim(n);
    AtoiDigits(n);
  }

  lemma LengthLineParses(r: Request, n: nat)
    requires r.headers == [Null, Null, Null] && n < U32
    ensures NoCrlf(LengthLine(n)) && IsAscii(LengthLine(n))
    ensures HeaderLine(r, LengthLine(n)) == Ok(r.(headers := [ContentLength(n), Null, Null]))
  {
    LengthLineShape(n);
    LengthHeader(n);
    assert FirstNull(r.headers, 0) == Some(0);
    HeaderLineFills(r, CONTENT_LENGTH, [SP] + Digits(n), 0);
    FillFirst(r.headers, ContentLength(n));
  }

  lemma FillFirst(hs: seq<Header>, h: Header)
    requires hs == [Null, Null, Null]
    ensures hs[0 := h] == [h, Null, Null]
  {
  }

  /** A request line and a Content-Length line parse to that method and path
      with the length in the first slot, as the crate's own tests expect of
      "GET / HTTP/1.1", "Content-Length: 1234". */
  lemma ParseLengthRequest(m: HttpMethod, path: seq<byte>, n: nat)
    requires path != [] && IsAscii(path) && SP !in path && CR !in path && n < U32
    ensures ParseSpec(Block([RequestLineOf(m, path), LengthLine(n)]))
            == Ok(Request(m, path, [ContentLength(n), Null, Null]))
  {
    FoldLengthRequest(m, path, n);
    ParseTwo(RequestLineOf(m, path), LengthLine(n), Request(m, path, [ContentLength(n), Null, Null]));
  }

  lemma ParseTwo(l1: seq<byte>, l2: seq<byte>, r: Request)
    requires NoCrlf(l1) && IsAscii(l1) && NoCrlf(l2) && IsAscii(l2)
    requires Fold(FirstLine, HeaderLine, INITIAL, [l1, l2], true) == Ok(r) && r.path != []
    ensures ParseSpec(Block([l1, l2])) == Ok(r)
  {
    var lines := [l1, l2];
    assert forall k :: 0 <= k < |lines| ==> NoCrlf(lines[k]) && IsAscii(lines[k]);
    ParseBlock(lines, r);
  }

  /** A block of ASCII lines parses to what folding the line handlers over
      its lines gives, when that has a path. */
  lemma ParseBlock(lines: seq<seq<byte>>, r: Request)
    requires forall k :: 0 <= k < |lines| ==> NoCrlf(lines[k]) && IsAscii(lines[k])
    requires Fold(FirstLine, HeaderLine, INITIAL, lines, true) == Ok(r) && r.path != []
    ensures ParseSpec(Block(lines)) == Ok(r)
  {
    BlockScan(lines);
  }

  /** The block of ASCII lines without CRLF is valid UTF-8 and scans back
      into those lines. */
  lemma BlockScan(lines: seq<seq<byte>>)
    requires forall k :: 0 <= k < |lines| ==> NoCrlf(lines[k]) && IsAscii(lines[k])
    ensures ValidUtf8(Block(lines)) && LinesFrom(Block(lines), 0) == lines
  {
    LinesOfBlock(lines);
    BlockAscii(lines);
    AsciiIsUtf8(Block(lines));
  }

  lemma FoldLengthRequest(m: HttpMethod, path: seq<byte>, n: nat)
    requires IsAscii(path) && SP !in path && CR !in path && n < U32
    ensures var lines := [RequestLineOf(m, path), LengthLine(n)];
            && NoCrlf(lines[0]) && IsAscii(lines[0]) && NoCrlf(lines[1]) && IsAscii(lines[1])
            && Fold(FirstLine, HeaderLine, INITIAL, lines, true) == Ok(Request(m, path, [ContentLength(n), Null, Null]))
  {
    var r1 := Request(m, path, [Null, Null, Null]);
    RequestLineOfParses(m, path);
    LengthLineParses(r1, n);
    FoldTwo(RequestLineOf(m, path), LengthLine(n), r1, Request(m, path, [ContentLength(n), Null, Null]));
  }

  /** Two lines: the request line, then one header line. */
  lemma FoldTwo(l1: seq<byte>, l2: seq<byte>, r1: Request, r2: Request)
    requires FirstLine(INITIAL, l1) == Ok(r1) && HeaderLine(r1, l2) == Ok(r2)
    ensures Fold(FirstLine, HeaderLine, INITIAL, [l1, l2], true) == Ok(r2)
  {
    var none: seq<seq<byte>> := [];
    assert Fold(FirstLine, HeaderLine, r2, none, false) == Ok(r2);
    assert Fold(FirstLine, HeaderLine, r1, [l2], false) == Ok(r2) by {
      assert [l2][1..] == none;
    }
    assert [l1, l2][1..] == [l2];
  }


}
