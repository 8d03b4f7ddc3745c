/** The connection loop of doorctrl/src/http/server.rs run on small scripts:
    the server test's own script, and a request whose body has not fully
    arrived, which shows what parsing the whole buffer does. */
module ServerExamples {
  import opened Common
  import opened Ascii
  import opened Io
  import opened Http
  import opened HttpHeader
  import opened HttpRequest
  import opened HttpResponse
  import opened HttpServer
  import ResponseExamples

  /** The request line and the header line of the test request
      "GET /index.html HTTP/1.1\r\nContent-Length: 3\r\n\r\n". */
  function RequestLine0(): seq<byte> {
    MethodName(GET) + [SP] + Str("/index.html") + [SP] + Str("HTTP/1.1")
  }

  function LengthLine(): seq<byte> {
    CONTENT_LENGTH + [COLON] + Str(" 3")
  }

  /** The test request's header block followed by `tail`. */
  function WithTail(tail: seq<byte>): seq<byte> {
    RequestLine0() + CRLF + Joined([LengthLine()]) + CRLF + tail
  }

  /** What the test request parses to once its body is `body`. */
  function IndexRequest(body: seq<byte>): Request {
    INITIAL.(httpMethod := GET, path := Str("/index.html"), contentLength := 3,
             body := Some(body), headerSlice := Some(Joined([LengthLine()])))
  }

  /** After the header block of the test request, fewer than three bytes are
      an incomplete request; three or more are a request whose body is the
      first three of them. */
  lemma ParseWithTail(tail: seq<byte>)
    requires IsAscii(tail)
    ensures |tail| < 3 ==> ParseSpec(WithTail(tail)) == Err(Incomplete)
    ensures |tail| >= 3 ==> ParseSpec(WithTail(tail)) == Ok(IndexRequest(tail[..3]))
  {
    var path := Str("/index.html");
    var line0, h := RequestLine0(), LengthLine();
    ExampleLines();
    PrintableNoCrlf(line0);
    PrintableNoCrlf(h);
    ExampleUtf8(line0, h, tail);
    ParseLines(line0, [h], tail);
    RequestLineWords(INITIAL, GET, path, Str("HTTP/1.1"));
    ExampleHeader(INITIAL.(httpMethod := GET, path := path));
  }

  /** The test request with only two of its three body bytes. */
  function Short(): seq<byte> {
    WithTail(Str("ab"))
  }

  lemma WithTailLength(tail: seq<byte>)
    ensures |WithTail(tail)| == 47 + |tail|
  {
    assert Joined([LengthLine()]) == LengthLine() + CRLF + Joined([]);
  }

  /** The two body bytes and the zeros of the buffer after them are ASCII. */
  lemma ShortTail(n: nat)
    requires n >= 50
    ensures IsAscii(Str("ab") + Zeros(n - 49))
    ensures (Str("ab") + Zeros(n - 49))[..3] == Str("ab") + [0]
  {
    StrVisible("ab");
    assert Str("ab")[..] == Str("ab");
  }

  /** A read from a script that starts with a delivery of `d` that fits
      delivers all of it. */
  lemma TakeDelivery(d: seq<byte>, more: seq<ReadResult>, room: nat)
    requires |d| <= room
    ensures Take([Data(d)] + more, room) == (Data(d), more)
  {
    var input := [Data(d)] + more;
    assert input[0] == Data(d) && input[1..] == more;
  }

  /** The end of the script ends the inner loop with the connection closed. */
  lemma NoMoreDeliveries(buff: seq<byte>, offset: nat, whole: bool, parse: Parser)
    requires offset <= |buff|
    ensures ReadSpec([], buff, offset, whole, parse).0 == Closed
  {
  }

  /** As written, `serve` parses the whole zero-filled buffer: when only
      two of the three body bytes of the test request have arrived, the
      zero after them is taken as the third and the request is handed on
      with a body the peer never sent. */
  lemma WholeBufferFillsBody(n: nat)
    requires n >= 50
    ensures ReadSpec([Data(Short())], Zeros(n), 0, true, TryFromSpec).0
            == Parsed(IndexRequest(Str("ab") + [0]))
  {
    var d := Short();
    WithTailLength(Str("ab"));
    var tail := Str("ab") + Zeros(n - 49);
    ShortTail(n);
    ParseWithTail(tail);
    var filled := Fill(Zeros(n), 0, d);
    assert filled == WithTail(tail) by {
      assert Zeros(n)[49..] == Zeros(n - 49);
    }
    WithTailLength(tail);
    assert TryFromSpec(filled) == Ok(IndexRequest(Str("ab") + [0]));
    assert [Data(d)] + [] == [Data(d)];
    TakeDelivery(d, [], n);
    ReadFirstDone([Data(d)], Zeros(n), 0, true, TryFromSpec, Data(d), []);
  }

  /** The test request with its whole body. */
  lemma FullRequest()
    ensures TryFromSpec(WithTail(Str("abc"))) == Ok(IndexRequest(Str("abc")))
  {
    StrVisible("abc");
    ParseWithTail(Str("abc"));
    WithTailLength(Str("abc"));
    assert Str("abc")[..3] == Str("abc");
  }

  /** Two of the three body bytes make an incomplete request: the inner
      loop reads on. */
  lemma ShortIncomplete(n: nat)
    requires n >= 50
    ensures Next(Data(Short()), Fill(Zeros(n), 0, Short()), 0, false, TryFromSpec) == More(49)
  {
    WithTailLength(Str("ab"));
    StrVisible("ab");
    ParseWithTail(Str("ab"));
    var filled := Fill(Zeros(n), 0, Short());
    assert filled[..49] == Short();
  }

  /** Once the third body byte lands after the first two, the request is
      complete. */
  lemma LastByteParsed(filled: seq<byte>)
    requires |filled| >= 50 && filled[..49] == Short()
    ensures Next(Data(Str("c")), Fill(filled, 49, Str("c")), 49, false, TryFromSpec)
            == Done(Parsed(IndexRequest(Str("abc"))))
  {
    var d, c := Short(), Str("c");
    WithTailLength(Str("ab"));
    var filled2 := Fill(filled, 49, c);
    assert filled2[..50] == d + c;
    assert d + c == WithTail(Str("abc")) by { StrAppend("ab", "c"); }
    FullRequest();
  }

  /** With the window limited to the bytes received, the same delivery is an
      incomplete request, and the connection ending before the last body
      byte closes it without a request. */
  lemma ReceivedBodyWaits(n: nat)
    requires n >= 50
    ensures ReadSpec([Data(Short())], Zeros(n), 0, false, TryFromSpec).0 == Closed
  {
    var d := Short();
    WithTailLength(Str("ab"));
    ShortIncomplete(n);
    assert [Data(d)] + [] == [Data(d)];
    TakeDelivery(d, [], n);
    ReadFirstMore([Data(d)], Zeros(n), 0, false, TryFromSpec, Data(d), []);
    NoMoreDeliveries(Fill(Zeros(n), 0, d), 49, false, TryFromSpec);
  }

  /** Once the last body byte arrives, the request carries exactly the body
      that was sent. */
  lemma ReceivedBodyComplete(n: nat)
    requires n >= 50
    ensures ReadSpec([Data(Short()), Data(Str("c"))], Zeros(n), 0, false, TryFromSpec).0
            == Parsed(IndexRequest(Str("abc")))
  {
    var d, c := Short(), Str("c");
    WithTailLength(Str("ab"));
    ShortIncomplete(n);
    assert [Data(d)] + [Data(c)] == [Data(d), Data(c)];
    TakeDelivery(d, [Data(c)], n);
    ReadFirstMore([Data(d), Data(c)], Zeros(n), 0, false, TryFromSpec, Data(d), [Data(c)]);
    var filled := Fill(Zeros(n), 0, d);
    LastByteParsed(filled);
    assert [Data(c)] + [] == [Data(c)];
    TakeDelivery(c, [], n - 49);
    ReadFirstDone([Data(c)], filled, 49, false, TryFromSpec, Data(c), []);
  }

  // ---------------------------------------------------------------------------
  // The server test: one request, then a reset connection

  /** The test's handler: "/index.html" and "/test1" are answered 200 with a
      body of their own, any other path 404 "Not Found". A `?` on a failing
      call ends it with that call's error. */
  function TestHandler(req: Request, budget: nat): Reply {
    var reason := if req.path == Str("/index.html") || req.path == Str("/test1") then OK_TEXT else NOT_FOUND;
    var body := if req.path == Str("/index.html") then Str("working")
                else if req.path == Str("/test1") then Str("test1") else Str("Not Found");
    var head := Head(reason, Resp(Server, req.host));
    var rest := BodyChunks(body);
    if budget < |head| then Reply(head, Err(Disconnected))
    else if budget < |head| + |rest| then
      Reply(head + rest, Err(if budget - |head| == |rest| - 2 then NetworkError(RESET) else Disconnected))
    else Reply(head + rest, Ok(false))
  }

  /** The test's script: the whole request in one read, then a reset. */
  function TestScript(): seq<ReadResult> {
    [Data(Str("GET /index.html HTTP/1.1\r\nContent-Length: 3\r\n\r\nabc")), Failed(ConnectionReset)]
  }

  /** The calls the handler issues for the test request. */
  function TestChunks(): seq<seq<byte>> {
    Head(OK_TEXT, Resp(Server, Str("unspecified"))) + BodyChunks(Str("working"))
  }

  /** The bytes the test expects on the wire. */
  const EXPECTED := Str("HTTP/1.1 200 OK\r\n") + Str("Server: unspecified\r\n") + Str("Content-Length: 7\r\n")
                    + Str("\r\n") + Str("working")

  /** The test request is parsed from the received bytes and, as written,
      from the whole zero-filled buffer alike: its body is complete. */
  lemma TestParsed(whole: bool)
    ensures Next(Data(WithTail(Str("abc"))), Fill(Zeros(2048), 0, WithTail(Str("abc"))), 0, whole, TryFromSpec)
            == Done(Parsed(IndexRequest(Str("abc"))))
  {
    var d := WithTail(Str("abc"));
    WithTailLength(Str("abc"));
    var filled := Fill(Zeros(2048), 0, d);
    if whole {
      var tail := Str("abc") + Zeros(1998);
      StrVisible("abc");
      ParseWithTail(tail);
      assert Zeros(2048)[50..] == Zeros(1998);
      assert filled == WithTail(tail);
      assert tail[..3] == Str("abc");
    } else {
      FullRequest();
      assert filled[..50] == d;
    }
  }

  /** The first pass of the outer loop reads the test request. */
  lemma TestFirstRead(whole: bool)
    ensures ReadSpec(TestScript(), Zeros(2048), 0, whole, TryFromSpec)
            == (Parsed(IndexRequest(Str("abc"))), [Failed(ConnectionReset)],
                Fill(Zeros(2048), 0, WithTail(Str("abc"))))
  {
    var d := WithTail(Str("abc"));
    assert TestScript()[0].bytes == d by { ExampleBytes(); }
    WithTailLength(Str("abc"));
    TestParsed(whole);
    assert TestScript() == [Data(d)] + [Failed(ConnectionReset)];
    TakeDelivery(d, [Failed(ConnectionReset)], 2048);
    ReadFirstDone(TestScript(), Zeros(2048), 0, whole, TryFromSpec, Data(d), [Failed(ConnectionReset)]);
  }

  /** A reset connection ends `serve` successfully, with nothing written. */
  lemma ResetEnds(buff: seq<byte>, budget: nat, handler: Handler, whole: bool, parse: Parser)
    ensures ServeSpec([Failed(ConnectionReset)], buff, budget, handler, whole, parse) == (Ok(()), [], [], buff)
  {
    var input: seq<ReadResult> := [Failed(ConnectionReset)];
    assert input[1..] == [];
    assert Take(input, |buff|) == (Failed(ConnectionReset), []);
    assert ReadSpec(input, buff, 0, whole, parse) == (Closed, [], buff);
  }

  /** `serve` on the test's script: the test request is answered with the
      handler's calls, and the reset that follows ends the loop with
      `Ok(())`. This holds for the loop as written and as corrected. */
  lemma ServeTestScript(whole: bool)
    ensures ServeSpec(TestScript(), Zeros(2048), 100, TestHandler, whole, TryFromSpec).0 == Ok(())
    ensures ServeSpec(TestScript(), Zeros(2048), 100, TestHandler, whole, TryFromSpec).1 == TestChunks()
  {
    TestFirstRead(whole);
    var req := IndexRequest(Str("abc"));
    assert req.path == Str("/index.html") && req.host == Str("unspecified");
    assert TestHandler(req, 100) == Reply(TestChunks(), Ok(false));
    var filled := Fill(Zeros(2048), 0, WithTail(Str("abc")));
    ServeAnswered(TestScript(), Zeros(2048), 100, TestHandler, whole, TryFromSpec);
    ResetEnds(filled, Left(100, |TestChunks()|), TestHandler, whole, TryFromSpec);
    assert TestChunks() + [] == TestChunks();
  }

  lemma Digits7()
    ensures Digits(7) == Str("7")
  {
  }

  /** The status line and the Server line of the test's response. */
  lemma TestHeadText()
    ensures Concat(Head(OK_TEXT, Resp(Server, Str("unspecified"))))
            == Str("HTTP/1.1 200 OK\r\n") + Str("Server: unspecified\r\n")
  {
    var server := Resp(Server, Str("unspecified"));
    ConcatAppend(StatusChunks(OK_TEXT), Chunks(server));
    ResponseExamples.StatusLineText("200 OK");
    ResponseExamples.StatusLineJoin("200 OK");
    ResponseExamples.HeaderText(server, "Server", "unspecified");
    assert "Server" + ": " + "unspecified" + "\r\n" == "Server: unspecified\r\n";
  }

  /** The Content-Length line, the blank line and the body of the test's
      response. */
  lemma TestBodyText()
    ensures Concat(BodyChunks(Str("working"))) == Str("Content-Length: 7\r\n") + Str("\r\n") + Str("working")
  {
    var length, working := RespContentLength(7), Str("working");
    assert |working| == 7;
    ConcatAppend(Chunks(length), [CRLF, working]);
    ConcatPair(CRLF, working);
    Digits7();
    ResponseExamples.HeaderText(length, "Content-Length", "7");
    assert Str("\r\n") == CRLF;
  }

  /** The handler's calls for the test request spell the expected response. */
  lemma TestChunksText()
    ensures Concat(TestChunks()) == EXPECTED
  {
    ConcatAppend(Head(OK_TEXT, Resp(Server, Str("unspecified"))), BodyChunks(Str("working")));
    TestHeadText();
    TestBodyText();
  }

  /** `test_http_server`: a server with the test handler, a connection that
      delivers the test request and is then reset, and a 2048-byte buffer
      of zeros. `serve` returns `Ok(())` and the peer receives the expected
      response. */
  method TestHttpServer() returns (r: Result<(), HttpError>, out: seq<byte>)
    ensures r == Ok(()) && out == EXPECTED
  {
    var server := new Server(TestHandler);
    var client := new Client(100, TestScript());
    var buff := new byte[2048](_ => 0);
    assert buff[..] == Zeros(2048);
    r := server.Serve(client, buff);
    out := client.out;
    ServeTestScript(false);
    SentAll(TestChunks(), 100);
    TestChunksText();
  }
}
