/** The responder driven the way the response tests of
    doorctrl/src/http/response.rs drive it, on a connection that accepts
    every write. */
module ResponseExamples {
  import opened Common
  import opened Ascii
  import opened Io
  import opened HttpHeader
  import opened HttpRequest
  import opened HttpResponse

  /** A GET for "/" from a host named `host`. */
  function Get(host: string): Request {
    Request(GET, Str("/"), Str(host), None, None, 0, None, None)
  }

  /** A status line whose reason is the text `reason`. */
  lemma StatusLineText(reason: string)
    ensures Concat(StatusChunks(Str(reason))) == Str("HTTP/1.1 " + reason + "\r\n")
  {
    StatusLine(Str(reason));
    StrAppend("HTTP/1.1 " + reason, "\r\n");
    StrAppend("HTTP/1.1 ", reason);
    StrAppend("HTTP/1.1", " ");
    assert "HTTP/1.1" + " " == "HTTP/1.1 ";
    assert Str("\r\n") == CRLF && Str(" ") == [SP];
  }

  /** A header line whose name and value are the texts `name` and `value`. */
  lemma HeaderText(h: ResponseHeader, name: string, value: string)
    requires h != RespContentLength(0) && Name(h) == Str(name) && Text(h) == Str(value)
    ensures Concat(Chunks(h)) == Str(name + ": " + value + "\r\n")
  {
    HttpHeader.HeaderLine(h);
    StrAppend(name + ": " + value, "\r\n");
    StrAppend(name + ": ", value);
    StrAppend(name, ": ");
    assert Str("\r\n") == CRLF;
  }

  /** A response with a valid status, one more header and no body. */
  lemma NoBodyText(reason: string, host: string, h: ResponseHeader, name: string, value: string)
    requires h != RespContentLength(0) && Name(h) == Str(name) && Text(h) == Str(value)
    ensures Concat(Head(Str(reason), Resp(Server, Str(host))) + Chunks(h) + [CRLF])
            == Str("HTTP/1.1 " + reason + "\r\n") + Str("Server" + ": " + host + "\r\n")
               + Str(name + ": " + value + "\r\n") + Str("\r\n")
  {
    var server := Resp(Server, Str(host));
    ConcatAppend(StatusChunks(Str(reason)), Chunks(server));
    ConcatAppend(Head(Str(reason), server), Chunks(h));
    ConcatAppend(Head(Str(reason), server) + Chunks(h), [CRLF]);
    StatusLineText(reason);
    HeaderText(server, "Server", host);
    HeaderText(h, name, value);
    assert Concat([CRLF]) == CRLF == Str("\r\n");
  }

  /** The lines the response tests expect, assembled from their parts. */
  lemma StatusLineJoin(code: string)
    requires code == "200 OK" || code == "401"
    ensures "HTTP/1.1 " + code + "\r\n" == (if code == "401" then "HTTP/1.1 401\r\n" else "HTTP/1.1 200 OK\r\n")
  {
  }

  lemma HeaderLineJoin()
    ensures "Server" + ": " + "RustServer" + "\r\n" == "Server: RustServer\r\n"
    ensures "Content-Type" + ": " + "text/html" + "\r\n" == "Content-Type: text/html\r\n"
  {
  }

  /** The output of the default response test: 200, the Server line, a
      Content-Type line, and the blank line. */
  lemma DefaultText()
    ensures Concat(Head(OK_TEXT, Resp(Server, Str("RustServer"))) + Chunks(Resp(RespContentType, Str("text/html"))) + [CRLF])
            == Str("HTTP/1.1 200 OK\r\n") + Str("Server: RustServer\r\n") + Str("Content-Type: text/html\r\n") + Str("\r\n")
  {
    var h := Resp(RespContentType, Str("text/html"));
    NoBodyText("200 OK", "RustServer", h, "Content-Type", "text/html");
    StatusLineJoin("200 OK");
    HeaderLineJoin();
  }

  /** The default response test: `with_status(OK)`, a Content-Type header
      and `no_body` on a fresh responder put the default response on the
      wire. */
  method DefaultResponse() returns (out: seq<byte>)
    ensures out == Str("HTTP/1.1 200 OK\r\n") + Str("Server: RustServer\r\n") + Str("Content-Type: text/html\r\n") + Str("\r\n")
  {
    var client := new Client(100, []);
    var resp := new Responder(Get("RustServer"), client);
    var h := Resp(RespContentType, Str("text/html"));
    var r := resp.WithStatus(OK);
    r := resp.WithHeader(h);
    r := resp.NoBody();
    out := client.out;
    ghost var head := Head(OK_TEXT, resp.server);
    AfterThen([], 100, head, Chunks(h));
    AfterThen([], 100, head + Chunks(h), [CRLF]);
    SentAll(head + Chunks(h) + [CRLF], 100);
    DefaultText();
  }

  lemma Digits401()
    ensures Digits(401) == Str("401")
  {
    DigitsThree(401);
  }

  /** The custom status test: a code with no phrase of its own is written
      as the bare number. */
  lemma CustomStatusText()
    ensures Reason(StatusCode.Other(401)) == Some(Str("401"))
    ensures Concat(Head(Str("401"), Resp(Server, Str("RustServer"))) + Chunks(Resp(RespContentType, Str("text/html"))) + [CRLF])
            == Str("HTTP/1.1 401\r\n") + Str("Server: RustServer\r\n") + Str("Content-Type: text/html\r\n") + Str("\r\n")
  {
    Digits401();
    var h := Resp(RespContentType, Str("text/html"));
    NoBodyText("401", "RustServer", h, "Content-Type", "text/html");
    StatusLineJoin("401");
    HeaderLineJoin();
  }
}
