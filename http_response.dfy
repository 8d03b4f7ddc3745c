/** The response side of the doorctrl HTTP stack (doorctrl/src/http/response.rs):
    the status line, and the responder that walks a response through its two
    states, Init (nothing written yet) and Sending (status line and Server
    header written), to a body, an empty body or a WebSocket upgrade. */
module HttpResponse {
  import opened Common
  import opened Ascii
  import opened Io
  import opened Http
  import opened HttpHeader
  import opened HttpRequest
  import WebSocket

  type u16 = n: nat | n < 0x1_0000

  datatype StatusCode =
    | SwitchingProtocols
    | OK
    | BadRequest
    | NotFound
    | InternalServerError
    | Other(code: u16)

  const HTTP_PROTO: seq<byte> := Str("HTTP/1.1")
  const SWITCHING: seq<byte> := Str("101 Switching Protocols")
  const OK_TEXT: seq<byte> := Str("200 OK")
  const BAD_REQUEST: seq<byte> := Str("400 Bad Request")
  const NOT_FOUND: seq<byte> := Str("404 Not Found")
  const SERVER_ERROR: seq<byte> := Str("500 Internal Server Error")
  const UPGRADE: seq<byte> := Str("Upgrade")
  const WEBSOCKET: seq<byte> := Str("websocket")

  /** The numeric code a status stands for. */
  function Number(s: StatusCode): nat {
    match s
    case SwitchingProtocols => 101
    case OK => 200
    case BadRequest => 400
    case NotFound => 404
    case InternalServerError => 500
    case Other(n) => n
  }

  /** The text after the protocol: the code and the reason phrase for the
      named statuses, the bare code for any other status in 100..=599,
      nothing for a code outside that range. */
  function Reason(s: StatusCode): (r: Option<seq<byte>>)
    ensures r.None? <==> s.Other? && !(100 <= s.code <= 599)
  {
    match s
    case SwitchingProtocols => Some(SWITCHING)
    case OK => Some(OK_TEXT)
    case BadRequest => Some(BAD_REQUEST)
    case NotFound => Some(NOT_FOUND)
    case InternalServerError => Some(SERVER_ERROR)
    case Other(n) => if 100 <= n <= 599 then Some(Digits(n)) else None
  }

  /** A three-digit number is written as its hundreds, tens and units. */
  lemma DigitsThree(n: nat)
    requires 100 <= n <= 999
    ensures Digits(n) == [(48 + n / 100) as byte, (48 + n / 10 % 10) as byte, (48 + n % 10) as byte]
  {
    assert Digits(n) == Digits(n / 10) + [(48 + n % 10) as byte];
    assert Digits(n / 10) == Digits(n / 100) + [(48 + (n / 10) % 10) as byte];
  }

  /** A phrase whose first three characters are the digits of `n`. */
  lemma CodePrefix(text: string, n: nat)
    requires 100 <= n <= 999 && |text| >= 3
    requires text[0] as int == 48 + n / 100 && text[1] as int == 48 + n / 10 % 10 && text[2] as int == 48 + n % 10
    ensures Str(text)[..3] == Digits(n)
  {
    DigitsThree(n);
  }

  /** Every status line names its code first: the text starts with the
      three digits of the status's number. */
  lemma ReasonStartsWithCode(s: StatusCode)
    requires Reason(s).Some?
    ensures |Reason(s).value| >= 3 && Reason(s).value[..3] == Digits(Number(s))
  {
    match s
    case SwitchingProtocols => CodePrefix("101 Switching Protocols", 101);
    case OK => CodePrefix("200 OK", 200);
    case BadRequest => CodePrefix("400 Bad Request", 400);
    case NotFound => CodePrefix("404 Not Found", 404);
    case InternalServerError => CodePrefix("500 Internal Server Error", 500);
    case Other(n) => DigitsThree(n);
  }

  /** The `write_all` calls of `HttpStatusCode::write`. */
  function StatusChunks(reason: seq<byte>): seq<seq<byte>> {
    [HTTP_PROTO, [SP], reason, CRLF]
  }

  /** The status line on the wire: protocol, space, reason, CRLF. */
  lemma StatusLine(reason: seq<byte>)
    ensures Concat(StatusChunks(reason)) == HTTP_PROTO + [SP] + reason + CRLF
  {
    var p, r := HTTP_PROTO, reason;
    assert [p, [SP], r, CRLF][..3] == [p, [SP], r];
    assert [p, [SP], r][..2] == [p, [SP]];
    assert [p, [SP]][..1] == [p];
    var none: seq<seq<byte>> := [];
    assert [p][..0] == none;
    assert Concat([p]) == p;
    assert Concat([p, [SP]]) == p + [SP];
    assert Concat([p, [SP], r]) == p + [SP] + r;
  }

  /** `HttpStatusCode::write`: an invalid code is refused before anything is
      written; otherwise all four calls are issued and any failure is
      reported as Disconnected. */
  method WriteStatus(s: StatusCode, w: Client) returns (r: Result<(), HttpError>)
    modifies w
    ensures Reason(s).None? ==> r == Err(ProtocolError("invalid status code"))
    ensures Reason(s).None? ==> w.out == old(w.out) && w.budget == old(w.budget)
    ensures Reason(s).Some? ==> (w.out, w.budget) == After(old(w.out), old(w.budget), StatusChunks(Reason(s).value))
    ensures Reason(s).Some? ==> (r.Ok? <==> old(w.budget) >= 4)
    ensures r.Err? && Reason(s).Some? ==> r.error == Disconnected
    ensures w.input == old(w.input)
  {
    var text := StatusText(s);
    if text.None? {
      return Err(ProtocolError("invalid status code"));
    }
    var data := text.value;
    ghost var out0, b0 := w.out, w.budget;
    var ok1 := w.WriteAll(HTTP_PROTO);
    var ok2 := w.WriteAll([SP]);
    AfterThen(out0, b0, [HTTP_PROTO], [[SP]]);
    assert [HTTP_PROTO] + [[SP]] == [HTTP_PROTO, [SP]];
    var ok3 := w.WriteAll(data);
    AfterThen(out0, b0, [HTTP_PROTO, [SP]], [data]);
    assert [HTTP_PROTO, [SP]] + [data] == [HTTP_PROTO, [SP], data];
    var ok4 := w.WriteAll(CRLF);
    AfterThen(out0, b0, [HTTP_PROTO, [SP], data], [CRLF]);
    assert [HTTP_PROTO, [SP], data] + [CRLF] == StatusChunks(data);
    r := if ok1 && ok2 && ok3 && ok4 then Ok(()) else Err(Disconnected);
  }

  /** The `data` of `HttpStatusCode::write`: a fixed phrase, or the code
      rendered by `AsciiInt` and trimmed. */
  method StatusText(s: StatusCode) returns (data: Option<seq<byte>>)
    ensures data == Reason(s)
  {
    match s {
      case SwitchingProtocols => data := Some(SWITCHING);
      case OK => data := Some(OK_TEXT);
      case BadRequest => data := Some(BAD_REQUEST);
      case NotFound => data := Some(NOT_FOUND);
      case InternalServerError => data := Some(SERVER_ERROR);
      case Other(n) =>
        if !(100 <= n <= 599) {
          return None;
        }
        var padded := AsciiIntFrom(n);
        AsStrDigits(20 - |Digits(n)|, n);
        data := Some(AsStr(padded));
    }
  }

  /** The calls `with_status` issues for a valid status: the status line,
      then the Server header. */
  function Head(reason: seq<byte>, server: ResponseHeader): (r: seq<seq<byte>>)
    ensures server.Resp? ==> |r| == 8
  {
    StatusChunks(reason) + Chunks(server)
  }

  /** What the head of a response puts on the wire when every call
      succeeds: the status line, then the Server line. */
  lemma HeadText(reason: seq<byte>, server: ResponseHeader)
    requires server.Resp?
    ensures Concat(Head(reason, server))
            == HTTP_PROTO + [SP] + reason + CRLF + Name(server) + Str(": ") + Text(server) + CRLF
  {
    ConcatAppend(StatusChunks(reason), Chunks(server));
    StatusLine(reason);
    HttpHeader.HeaderLine(server);
  }

  /** The calls `with_body` issues: the Content-Length header (none for an
      empty body), the blank line, the body. */
  function BodyChunks(body: seq<byte>): seq<seq<byte>> {
    Chunks(RespContentLength(|body|)) + [CRLF, body]
  }

  /** What `with_body` puts on the wire when every call succeeds: the
      Content-Length line (none for an empty body), the blank line, the body. */
  lemma BodyText(body: seq<byte>)
    ensures body == [] ==> Concat(BodyChunks(body)) == CRLF
    ensures body != [] ==>
              Concat(BodyChunks(body)) == CONTENT_LENGTH + Str(": ") + Digits(|body|) + CRLF + CRLF + body
  {
    var h := RespContentLength(|body|);
    ConcatPair(CRLF, body);
    if body == [] {
      assert BodyChunks(body) == [CRLF, body];
    } else {
      ConcatAppend(Chunks(h), [CRLF, body]);
      HttpHeader.HeaderLine(h);
      var line := Name(h) + Str(": ") + Text(h) + CRLF;
      assert Concat(BodyChunks(body)) == line + (CRLF + body);
    }
  }

  lemma ConcatPair(a: seq<byte>, b: seq<byte>)
    ensures Concat([a, b]) == a + b
  {
    assert [a, b][..1] == [a];
    assert Concat([a]) == Concat([]) + a;
  }

  const NO_KEY := "websocket upgrade did not include a Sec-Websocket-Key header"
  const RESET := "connection reset by peer"

  /** How the Sec-WebSocket-Accept value is derived from the client's key
      (SHA-1 and Base64 in the source); it may refuse a key. */
  type AcceptFn = seq<byte> -> Result<seq<byte>, string>

  /** The key `upgrade` looks up: the first header line that resolves to a
      Sec-WebSocket-Key header. */
  function WebsocketKey(req: Request): Option<seq<byte>> {
    if req.headerSlice.None? then None
    else
      match FindFrom(req.headerSlice.value, 0, Req(SecWebSocketKey, []), Resolve)
      case Some(Req(SecWebSocketKey, k)) => Some(k)
      case _ => None
  }

  /** What `upgrade` plans to write and how it ends when every write
      succeeds: a 400 response with no body and a protocol error when the key
      is missing or refused, otherwise the 101 response with the accept
      value, `Upgrade: websocket` and `Connection: Upgrade`, and then the
      WebSocket. */
  function UpgradePlan(req: Request, server: ResponseHeader, accept: AcceptFn): (r: (seq<seq<byte>>, Option<HttpError>))
    ensures r.1.Some? ==> r.0 == Head(BAD_REQUEST, server) + [CRLF]
    ensures r.1.None? ==> r.0 == AcceptChunks(server, AcceptValue(req, accept))
  {
    var refuse := Head(BAD_REQUEST, server) + [CRLF];
    match WebsocketKey(req)
    case None => (refuse, Some(ProtocolError(NO_KEY)))
    case Some(k) =>
      match accept(k)
      case Err(e) => (refuse, Some(ProtocolError(e)))
      case Ok(a) => (AcceptChunks(server, a), None)
  }

  /** `HttpResponder`. The Init and Sending states of the source's type
      parameter are the flag `sending`. */
  class Responder {
    var status: StatusCode
    const server: ResponseHeader
    const client: Client
    var sending: bool

    /** `HttpResponder::new`: status 200, the Server header naming the
        request's host. */
    constructor (request: Request, client: Client)
      ensures status == OK && server == Resp(Server, request.host)
      ensures this.client == client && !sending
    {
      status := OK;
      server := Resp(Server, request.host);
      this.client := client;
      sending := false;
    }

    /** `with_status`: the status line and then the Server header; the
        first failing call ends it. */
    method WithStatus(s: StatusCode) returns (r: Result<(), HttpError>)
      requires !sending && server.Resp?
      modifies this, client
      ensures Reason(s).None? ==> r == Err(ProtocolError("invalid status code"))
      ensures Reason(s).None? ==> client.out == old(client.out) && client.budget == old(client.budget)
      ensures Reason(s).Some? ==>
        (client.out, client.budget) == After(old(client.out), old(client.budget), Head(Reason(s).value, server))
      ensures Reason(s).Some? ==> (r.Ok? <==> old(client.budget) >= 8)
      ensures r.Err? && Reason(s).Some? ==> r.error == Disconnected
      ensures client.input == old(client.input)
      ensures r.Ok? ==> status == s && sending
      ensures r.Err? ==> status == old(status) && sending == old(sending)
    {
      ghost var out0, b0 := client.out, client.budget;
      r := WriteStatus(s, client);
      if r.Err? {
        if Reason(s).Some? {
          AfterStop(out0, b0, StatusChunks(Reason(s).value), Chunks(server));
        }
        return;
      }
      r := Write(server, client);
      AfterThen(out0, b0, StatusChunks(Reason(s).value), Chunks(server));
      if r.Ok? {
        status := s;
        sending := true;
      }
    }

    /** `with_header` in the Init state: `with_status` with the current
        status, then the header. */
    method InitWithHeader(h: ResponseHeader) returns (r: Result<(), HttpError>)
      requires !sending && server.Resp?
      modifies this, client
      ensures Reason(old(status)).None? ==> r == Err(ProtocolError("invalid status code"))
      ensures Reason(old(status)).None? ==> client.out == old(client.out) && client.budget == old(client.budget)
      ensures Reason(old(status)).Some? ==>
        (client.out, client.budget)
        == After(old(client.out), old(client.budget), Head(Reason(old(status)).value, server) + Chunks(h))
      ensures Reason(old(status)).Some? ==> (r.Ok? <==> old(client.budget) >= 8 + |Chunks(h)|)
      ensures r.Err? && Reason(old(status)).Some? ==> r.error == Disconnected
      ensures client.input == old(client.input) && status == old(status)
      ensures sending <==> old(client.budget) >= 8 && Reason(old(status)).Some?
    {
      ghost var out0, b0 := client.out, client.budget;
      r := WithStatus(status);
      if r.Err? {
        if Reason(status).Some? {
          AfterStop(out0, b0, Head(Reason(status).value, server), Chunks(h));
        }
        return;
      }
      r := WithHeader(h);
      AfterThen(out0, b0, Head(Reason(status).value, server), Chunks(h));
    }

    /** `with_header` in the Sending state: the header's calls. */
    method WithHeader(h: ResponseHeader) returns (r: Result<(), HttpError>)
      requires sending
      modifies client
      ensures (client.out, client.budget) == After(old(client.out), old(client.budget), Chunks(h))
      ensures r.Ok? <==> old(client.budget) >= |Chunks(h)|
      ensures r.Err? ==> r.error == Disconnected
      ensures client.input == old(client.input)
    {
      r := Write(h, client);
    }

    /** `no_body`: the blank line that ends the header. */
    method NoBody() returns (r: Result<(), HttpError>)
      requires sending
      modifies client
      ensures (client.out, client.budget) == After(old(client.out), old(client.budget), [CRLF])
      ensures r.Ok? <==> old(client.budget) >= 1
      ensures r.Err? ==> r.error == Disconnected
      ensures client.input == old(client.input)
    {
      var ok := client.WriteAll(CRLF);
      r := if ok then Ok(()) else Err(Disconnected);
    }

    /** `with_body`: Content-Length, the blank line and the body. A failure
        in the header is Disconnected, in the blank line a network error,
        in the body Disconnected again. */
    method WithBody(body: seq<byte>) returns (r: Result<(), HttpError>)
      requires sending
      modifies client
      ensures (client.out, client.budget) == After(old(client.out), old(client.budget), BodyChunks(body))
      ensures r.Ok? <==> old(client.budget) >= |BodyChunks(body)|
      ensures r.Err? ==> r.error == (if old(client.budget) == |BodyChunks(body)| - 2
                                     then NetworkError(RESET) else Disconnected)
      ensures client.input == old(client.input)
    {
      ghost var out0, b0 := client.out, client.budget;
      var length := RespContentLength(|body|);
      ghost var c := Chunks(length);
      assert BodyChunks(body) == c + [CRLF] + [body];
      r := Write(length, client);
      if r.Err? {
        AfterStop(out0, b0, c, [CRLF] + [body]);
        assert c + ([CRLF] + [body]) == BodyChunks(body);
        return;
      }
      var ok := client.WriteAll(CRLF);
      AfterThen(out0, b0, c, [CRLF]);
      if !ok {
        AfterStop(out0, b0, c + [CRLF], [body]);
        return Err(NetworkError(RESET));
      }
      ok := client.WriteAll(body);
      AfterThen(out0, b0, c + [CRLF], [body]);
      if !ok {
        return Err(Disconnected);
      }
    }

    /** `websocket`: the blank line, then the connection as a WebSocket. */
    method Websocket() returns (r: Result<WebSocket.Websocket, HttpError>)
      requires sending
      modifies client
      ensures (client.out, client.budget) == After(old(client.out), old(client.budget), [CRLF])
      ensures r.Ok? <==> old(client.budget) >= 1
      ensures r.Err? ==> r.error == Disconnected
      ensures r.Ok? ==> fresh(r.value) && r.value.conn == client
      ensures client.input == old(client.input)
    {
      var ok := client.WriteAll(CRLF);
      if !ok {
        return Err(Disconnected);
      }
      var ws := new WebSocket.Websocket(client);
      return Ok(ws);
    }

    /** `upgrade`: what it writes and how it ends are `UpgradePlan`; any
        failing write ends it as Disconnected. */
    method Upgrade(req: Request, accept: AcceptFn) returns (r: Result<WebSocket.Websocket, HttpError>)
      requires !sending && server.Resp?
      modifies this, client
      ensures (client.out, client.budget) == After(old(client.out), old(client.budget), UpgradePlan(req, server, accept).0)
      ensures old(client.budget) < |UpgradePlan(req, server, accept).0| ==> r == Err(Disconnected)
      ensures old(client.budget) >= |UpgradePlan(req, server, accept).0| ==>
        match UpgradePlan(req, server, accept).1
        case Some(e) => r == Err(e)
        case None => r.Ok?
      ensures r.Ok? ==> fresh(r.value) && r.value.conn == client
      ensures client.input == old(client.input)
    {
      var found := GetHeader(req, Req(SecWebSocketKey, []));
      var key: seq<byte>;
      if found.Some? && found.value.Req? && found.value.field == SecWebSocketKey {
        key := found.value.value;
      } else {
        var e := Refuse();
        return if e.Some? then Err(e.value) else Err(ProtocolError(NO_KEY));
      }
      var acceptKey := accept(key);
      if acceptKey.Err? {
        var e := Refuse();
        return if e.Some? then Err(e.value) else Err(ProtocolError(acceptKey.error));
      }
      r := Accept(acceptKey.value);
    }

    /** The refusal of an upgrade: 400 and an empty body; `None` when every
        write succeeded. */
    method Refuse() returns (e: Option<HttpError>)
      requires !sending && server.Resp?
      modifies this, client
      ensures (client.out, client.budget) == After(old(client.out), old(client.budget), Head(BAD_REQUEST, server) + [CRLF])
      ensures e.None? <==> old(client.budget) >= 9
      ensures e.Some? ==> e.value == Disconnected
      ensures client.input == old(client.input)
    {
      ghost var out0, b0 := client.out, client.budget;
      var r := WithStatus(BadRequest);
      if r.Err? {
        AfterStop(out0, b0, Head(BAD_REQUEST, server), [CRLF]);
        return Some(r.error);
      }
      r := NoBody();
      AfterThen(out0, b0, Head(BAD_REQUEST, server), [CRLF]);
      return if r.Ok? then None else Some(r.error);
    }

    /** The acceptance of an upgrade: 101, the three headers, and the
        WebSocket. */
    method Accept(acceptKey: seq<byte>) returns (r: Result<WebSocket.Websocket, HttpError>)
      requires !sending && server.Resp?
      modifies this, client
      ensures (client.out, client.budget) == After(old(client.out), old(client.budget), AcceptChunks(server, acceptKey))
      ensures r.Ok? <==> old(client.budget) >= |AcceptChunks(server, acceptKey)|
      ensures r.Err? ==> r.error == Disconnected
      ensures r.Ok? ==> fresh(r.value) && r.value.conn == client
      ensures client.input == old(client.input)
    {
      ghost var out0, b0 := client.out, client.budget;
      var res := WithStatus(SwitchingProtocols);
      if res.Err? {
        AfterStop(out0, b0, Head(SWITCHING, server), UpgradeChunks(acceptKey));
        return Err(res.error);
      }
      r := UpgradeHeaders(acceptKey);
      AfterThen(out0, b0, Head(SWITCHING, server), UpgradeChunks(acceptKey));
    }

    /** The headers of a successful upgrade and the blank line. */
    method UpgradeHeaders(acceptKey: seq<byte>) returns (r: Result<WebSocket.Websocket, HttpError>)
      requires sending
      modifies client
      ensures (client.out, client.budget) == After(old(client.out), old(client.budget), UpgradeChunks(acceptKey))
      ensures r.Ok? <==> old(client.budget) >= |UpgradeChunks(acceptKey)|
      ensures r.Err? ==> r.error == Disconnected
      ensures r.Ok? ==> fresh(r.value) && r.value.conn == client
      ensures client.input == old(client.input)
    {
      ghost var out0, b0 := client.out, client.budget;
      var h1 := SecWebSocketAccept(acceptKey);
      var h2 := RespOther(UPGRADE, WEBSOCKET);
      var h3 := Resp(RespConnection, UPGRADE);
      ghost var c1, c2, c3 := Chunks(h1), Chunks(h2), Chunks(h3);
      assert UpgradeChunks(acceptKey) == c1 + c2 + c3 + [CRLF];
      var res := WithHeader(h1);
      if res.Err? {
        AfterStop(out0, b0, c1, c2 + c3 + [CRLF]);
        assert c1 + (c2 + c3 + [CRLF]) == UpgradeChunks(acceptKey);
        return Err(res.error);
      }
      AfterThen(out0, b0, c1, c2);
      res := WithHeader(h2);
      if res.Err? {
        AfterStop(out0, b0, c1 + c2, c3 + [CRLF]);
        assert c1 + c2 + (c3 + [CRLF]) == UpgradeChunks(acceptKey);
        return Err(res.error);
      }
      AfterThen(out0, b0, c1 + c2, c3);
      res := WithHeader(h3);
      if res.Err? {
        AfterStop(out0, b0, c1 + c2 + c3, [CRLF]);
        return Err(res.error);
      }
      AfterThen(out0, b0, c1 + c2 + c3, [CRLF]);
      r := Websocket();
    }
  }

  /** The value `upgrade` answers with, when the key is present and accepted. */
  function AcceptValue(req: Request, accept: AcceptFn): seq<byte> {
    match WebsocketKey(req)
    case None => []
    case Some(k) => if accept(k).Ok? then accept(k).value else []
  }

  /** The headers of a successful upgrade and the blank line. */
  function UpgradeChunks(acceptKey: seq<byte>): (r: seq<seq<byte>>)
    ensures |r| == 13
  {
    Chunks(SecWebSocketAccept(acceptKey))
    + Chunks(RespOther(UPGRADE, WEBSOCKET))
    + Chunks(Resp(RespConnection, UPGRADE))
    + [CRLF]
  }

  /** The calls of a successful upgrade. */
  function AcceptChunks(server: ResponseHeader, acceptKey: seq<byte>): seq<seq<byte>> {
    Head(SWITCHING, server) + UpgradeChunks(acceptKey)
  }
}
