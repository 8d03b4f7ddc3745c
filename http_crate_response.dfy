/** The canned responses of the standalone `http` crate
    (http/src/response.rs): a 200, 400 or 404 page with its length, and the
    WebSocket handshake answer. */
module HttpCrateResponse {
  import opened Common
  import opened Ascii
  import opened Io
  import opened HttpCrateHeader

  const RESPONSE_101: seq<byte> := Str(
    "HTTP/1.1 101 Switching Protocols\r\n"
    + "Upgrade: websocket\r\n"
    + "Connection: Upgrade\r\n"
    + "Sec-WebSocket-Accept: "
  )

  const RESPONSE_400: seq<byte> := Str(
    "HTTP/1.1 400 Bad Request\r\n"
    + "Server: DoorCtrl\r\n"
    + "Content-Type: text/html\r\n"
    + "Content-Length: "
  )

  const RESPONSE_400_BODY: seq<byte> := Str(
    "\n"
    + "<!DOCTYPE html>\n"
    + "<html>\n"
    + "<head>\n"
    + "<title>DoorCTRL</title>\n"
    + "</head>\n"
    + "<body>\n"
    + "<p>400 Request not supported</p>\n"
    + "</body>\n"
    + "</html>\n"
  )

  const RESPONSE_404: seq<byte> := Str(
    "HTTP/1.1 404 Not Found\r\n"
    + "Server: DoorCtrl\r\n"
    + "Content-Type: text/html\r\n"
    + "Content-Length: "
  )

  const RESPONSE_404_BODY: seq<byte> := Str(
    "\n"
    + "<!DOCTYPE html>\n"
    + "<html>\n"
    + "<head>\n"
    + "<title>DoorCTRL</title>\n"
    + "</head>\n"
    + "<body>\n"
    + "<p>404 Not Found</p>\n"
    + "</body>\n"
    + "</html>\n"
  )

  const RESPONSE_200: seq<byte> := Str(
    "HTTP/1.1 200 OK\r\n"
    + "Server: DoorCtrl\r\n"
    + "Content-Type: text/html\r\n"
    + "Content-Length: "
  )

  const RESPONSE_200_BODY: seq<byte> := Str(
    "\n"
    + "<!DOCTYPE html>\n"
    + "<html>\n"
    + "<head>\n"
    + "<title>DoorCTRL</title>\n"
    + "</head>\n"
    + "<body>\n"
    + "\n"
    + "<h1>DoorCTL is Alive</h1>\n"
    + "<p>Apparently the web server works...</p>\n"
    + "\n"
    + "<script>\n"
    + "const ws = new WebSocket('/ws');\n"
    + "\n"
    + "ws.addEventListener('open', (e) => {\n"
    + "  console.log('websocket opened');\n"
    + "  console.log(e);\n"
    + "});\n"
    + "\n"
    + "ws.addEventListener('error', (e) => {\n"
    + "  console.log('websocket error');\n"
    + "  console.log(e);\n"
    + "});\n"
    + "\n"
    + "ws.addEventListener('close', (e) => {\n"
    + "  console.log('websocket closed');\n"
    + "  console.log(e);\n"
    + "});\n"
    + "\n"
    + "ws.addEventListener('message', (e) => {\n"
    + "  console.log('websocket message received');\n"
    + "  console.log(e);\n"
    + "});\n"
    + "</script>\n"
    + "</body>\n"
    + "</html>\n"
  )

  const HTTP_WRITE_ERR: string := "error writing http response to destination"

  /** The header text and the page for a status code `respond` knows. */
  function Canned(code: nat): Option<(seq<byte>, seq<byte>)> {
    if code == 200 then Some((RESPONSE_200, RESPONSE_200_BODY))
    else if code == 400 then Some((RESPONSE_400, RESPONSE_400_BODY))
    else if code == 404 then Some((RESPONSE_404, RESPONSE_404_BODY))
    else None
  }

  /** The four writes of `respond`: the headers up to "Content-Length: ", the
      page length in decimal, the empty line, the page. */
  function RespondChunks(headers: seq<byte>, body: seq<byte>): seq<seq<byte>> {
    [headers, Digits(|body|), CRLF + CRLF, body]
  }

  /** `respond`: an unknown code is refused before anything is written;
      otherwise the four writes, stopping at the first that fails. */
  method Respond(code: nat, w: Client) returns (r: Result<(), string>)
    modifies w
    ensures Canned(code).None? ==> r == Err("unsupported http code") && w.out == old(w.out) && w.budget == old(w.budget)
    ensures Canned(code).Some? ==>
              var (headers, body) := Canned(code).value;
              && w.out == old(w.out) + Sent(RespondChunks(headers, body), old(w.budget))
              && w.budget == Left(old(w.budget), 4)
              && (r.Ok? <==> old(w.budget) >= 4)
              && (r.Err? ==> r.error == HTTP_WRITE_ERR)
    ensures w.input == old(w.input)
  {
    var canned := Canned(code);
    if canned.None? {
      return Err("unsupported http code");
    }
    var headers := canned.value.0;
    var body := canned.value.1;
    var contentLen := LengthText(body);
    var ok := WriteFour(headers, contentLen, CRLF + CRLF, body, w);
    r := if ok then Ok(()) else Err(HTTP_WRITE_ERR);
  }

  /** `AsciiInt::from(body.len()).as_str()`: the length in decimal. */
  method LengthText(body: seq<byte>) returns (text: seq<byte>)
    requires |body| < U64
    ensures text == Digits(|body|)
  {
    var padded := AsciiIntFrom(|body|);
    AsStrDigits(20 - |Digits(|body|)|, |body|);
    text := AsStr(padded);
  }

  /** Four writes in turn, each issued only when the one before succeeded. */
  method WriteFour(a: seq<byte>, b: seq<byte>, c: seq<byte>, d: seq<byte>, w: Client) returns (ok: bool)
    modifies w
    ensures w.out == old(w.out) + Sent([a, b, c, d], old(w.budget))
    ensures w.budget == Left(old(w.budget), 4) && w.input == old(w.input)
    ensures ok <==> old(w.budget) >= 4
  {
    ghost var b0 := w.budget;
    SentFront(a, [b, c, d], b0);
    assert [a] + [b, c, d] == [a, b, c, d];
    ok := w.WriteAll(a);
    if !ok {
      SentIsPrefix([b, c, d], 0);
      return;
    }
    ok := WriteThree(b, c, d, w);
  }

  /** Three writes in turn, each issued only when the one before succeeded. */
  method WriteThree(a: seq<byte>, b: seq<byte>, c: seq<byte>, w: Client) returns (ok: bool)
    modifies w
    ensures w.out == old(w.out) + Sent([a, b, c], old(w.budget))
    ensures w.budget == Left(old(w.budget), 3) && w.input == old(w.input)
    ensures ok <==> old(w.budget) >= 3
  {
    ghost var b0 := w.budget;
    SentThree(a, b, c, b0);
    SentIsPrefix([b], 0);
    SentIsPrefix([c], 0);
    ok := w.WriteAll(a);
    if !ok {
      return;
    }
    ok := w.WriteAll(b);
    if !ok {
      return;
    }
    ok := w.WriteAll(c);
  }

  /** What a client receives from `respond` when every write succeeds: the
      header text, the decimal length of the page, CRLF CRLF, the page; the
      length read back is the page's length. */
  lemma RespondOutput(headers: seq<byte>, body: seq<byte>)
    requires |body| < U32
    ensures Concat(RespondChunks(headers, body)) == headers + Digits(|body|) + (CRLF + CRLF) + body
    ensures AtoiSpec(Digits(|body|)) == Some(|body|)
  {
    ConcatFour(headers, Digits(|body|), CRLF + CRLF, body);
    AtoiDigits(|body|);
  }

  /** The pages' lengths, as the Content-Length values written. */
  lemma CannedLengths()
    ensures |RESPONSE_200_BODY| == 602 && |RESPONSE_400_BODY| == 119 && |RESPONSE_404_BODY| == 107
  {
  }

  /** The status line each code is answered with. */
  lemma StatusLines()
    ensures RESPONSE_200[..17] == Str("HTTP/1.1 200 OK\r\n")
    ensures RESPONSE_400[..26] == Str("HTTP/1.1 400 Bad Request\r\n")
    ensures RESPONSE_404[..24] == Str("HTTP/1.1 404 Not Found\r\n")
    ensures RESPONSE_101[..34] == Str("HTTP/1.1 101 Switching Protocols\r\n")
  {
  }

  /** `respond_websocket`, given the Base64 text of the SHA-1 of the key and
      the RFC 6455 GUID (None when encoding fails): the 101 headers, the
      accept value, the empty line. */
  method RespondWebsocket(accept: Option<AcceptKey>, w: Client) returns (r: Result<(), string>)
    modifies w
    ensures accept.None? ==> r == Err("error enoding key hash") && w.out == old(w.out) && w.budget == old(w.budget)
    ensures accept.Some? ==>
              && w.out == old(w.out) + Sent([RESPONSE_101, accept.value, CRLF + CRLF], old(w.budget))
              && w.budget == Left(old(w.budget), 3)
              && (r.Ok? <==> old(w.budget) >= 3)
              && (r.Err? ==> r.error == HTTP_WRITE_ERR)
    ensures w.input == old(w.input)
  {
    if accept.None? {
      return Err("error enoding key hash");
    }
    var ok := WriteThree(RESPONSE_101, accept.value, CRLF + CRLF, w);
    r := if ok then Ok(()) else Err(HTTP_WRITE_ERR);
  }
}
