# DoorCTRL core, modelled in Dafny

DoorCTRL is the firmware of a door-lock controller on an ESP32. Two
binaries share most of its code:

- `firmware` has a setup mode with a WebSocket configuration page.
- `doorctrl` serves a small web page and a Home Assistant MQTT session.

This project models the core of both and proves properties of the model.
The modelled parts are:

- both HTTP stacks: the `doorctrl/src/http` server and the older standalone
  `http` crate;
- the WebSocket frame codec;
- the three generations of the persisted configuration record and the flash
  they are kept in;
- the door task;
- the Home Assistant topics and MQTT session;
- both web services;
- the WS2812B LED driver;
- what each binary decides at boot.

Each file is one module and follows the source's own structure:

| file | models |
|---|---|
| `common.dfy` | bytes, text helpers, UTF-8 validity, `str::trim` |
| `io.dfy` | the client connection: a script of read results and a write budget |
| `ascii.dfy` | `atoi` and `AsciiInt` of `http/src/lib.rs` |
| `state.dfy` | lock and door states, `doorctrl/src/state/mod.rs` |
| `http_types.dfy` | `HTTPError`, `doorctrl/src/http/mod.rs` |
| `http_header.dfy` | `doorctrl/src/http/header.rs` |
| `http_request.dfy` | `doorctrl/src/http/request.rs` |
| `websocket.dfy` | `doorctrl/src/http/websocket.rs` |
| `http_response.dfy` | `doorctrl/src/http/response.rs` |
| `response_examples.dfy` | the response tests of `doorctrl/src/http/response.rs` |
| `http_server.dfy` | `doorctrl/src/http/server.rs` |
| `server_examples.dfy` | the server test, and the read-window finding on a concrete script |
| `http_crate.dfy` | the request parser of `http/src/lib.rs` |
| `http_crate_header.dfy` | `http/src/header.rs` |
| `http_crate_request.dfy` | `http/src/request.rs` |
| `http_crate_response.dfy` | `http/src/response.rs` |
| `config_value.dfy` | `ConfigV1Value`, the magic, the error texts, and the flash devices |
| `config.dfy` | `doorctrl/src/config.rs` |
| `conf_crate.dfy` | `conf/src/lib.rs` |
| `doorctrl_conf.dfy` | `doorctrl/src/conf/mod.rs` |
| `door.dfy` | `doorctrl/src/door/mod.rs` |
| `hass_topic.dfy` | `doorctrl/src/hass/topic.rs` |
| `hass.dfy` | `doorctrl/src/hass/mod.rs` |
| `channels.dfy` | the command channel, the state channel and its subscribers |
| `state_bytes.dfy` | the state and command bytes of both web services |
| `firmware_web.dfy` | `firmware/src/web/mod.rs` |
| `doorctrl_web.dfy` | `doorctrl/src/web/mod.rs` |
| `ws2812.dfy` | `firmware/src/ws2812/mod.rs` and `doorctrl/src/ws2812/mod.rs` |
| `boot.dfy` | the device id and the boot decision of both `bin/main.rs` files |

Code that changes state step by step is modelled as classes and methods.
Examples are the connection, the responder, the WebSocket wrapper, the flash
devices, the configuration objects, the door task, the MQTT context, the web
handlers and the LED driver. Each such method is proved equal to a
specification function, and the properties are proved about that function.

**Connections.** A connection is a `Client` object:

- its input is a script of read results, each some bytes or an error;
- its output is the bytes the peer has received;
- its write budget is the number of write calls that still succeed; every
  later call fails and sends nothing.

**Other inputs.** The outcomes of operations the model cannot see are
inputs to the model:

- the flash device's failures;
- the order in which a `select` is won;
- the MQTT broker's reason codes;
- the RMT channel's transmissions.

## Model

| member | source | states |
|---|---|---|
| Common.Lower | doorctrl/src/http/header.rs:58 | ASCII lower-casing, as used by `eq_ignore_ascii_case`: upper-case letters move by 32 and every other byte stays |
| Common.TrimNoSpace | doorctrl/src/http/request.rs:180-183 | `str::trim` leaves text without whitespace as it is |
| Common.TrimNoBreakSpace | doorctrl/src/http/request.rs:180-183 | `str::trim` strips a trailing no-break space (U+00A0) as well as ASCII spaces |
| Common.SplitOnce | doorctrl/src/http/request.rs:177-187 | `splitn(2, sep)`: the part before the first separator, which holds none, and the rest after it when there is one |
| Common.ValidUtf8Append | doorctrl/src/http/request.rs:91-93 | well-formed UTF-8 followed by well-formed UTF-8 is well-formed |
| Io.SentIsPrefix | doorctrl/src/http/response.rs:41-45 | what reaches the peer of a run of writes is always a prefix of the whole message, and nothing when no call succeeds |
| Io.SentAll | doorctrl/src/http/response.rs:41-45 | when every write succeeds the peer receives all of them, in order |
| Io.Take | doorctrl/src/http/server.rs:43 | one `read` delivers at most the room it is given |
| Io.TakeStream | doorctrl/src/http/server.rs:43-47 | a read delivers the front of the stream and leaves the rest, and reports the end or an error only when the stream has nothing more |
| Io.ReadExactSpec | doorctrl/src/http/websocket.rs:48-51 | a successful `read_exact` returns exactly the bytes asked for |
| Io.ReadExactStream | doorctrl/src/http/websocket.rs:48-82 | `read_exact` of n succeeds exactly when the stream holds n more bytes, and then returns the first n and leaves the rest |
| Io.ReadExactShrinks | doorctrl/src/http/websocket.rs:59-62 | `read_exact` never adds input, and one that asks for bytes and succeeds uses some up |
| Io.Client.WriteAll | doorctrl/src/http/websocket.rs:103-111 | `write_all` puts all of the data on the wire while the connection lasts and nothing after it has gone, and says which |
| Io.Client.ReadInto | doorctrl/src/http/server.rs:43 | `read` into a range of the buffer: the delivered bytes land at its front and nothing else in the buffer changes |
| Io.Client.ReadExactInto | doorctrl/src/http/websocket.rs:48-51 | `read_exact` into a range of the buffer: on success the range holds the bytes read; nothing outside it changes |
| Ascii.Atoi | http/src/lib.rs:234-259 | `atoi` returns nothing when a byte is not a digit, otherwise the value of the digits wrapped to 32 bits; the empty string is 0 |
| Ascii.LeadingZero | http/src/lib.rs:310 | a leading zero does not change the value ("0123456789" is 123456789) |
| Ascii.Digits | http/src/lib.rs:273-297 | the decimal spelling of a number has at least one digit and no leading zero unless it is "0" |
| Ascii.AtoiDigits | http/src/lib.rs:234-297 | `atoi` reads back what `AsciiInt` writes, for every value a `u32` holds |
| Ascii.DigitsInjective | http/src/lib.rs:273-297 | distinct numbers have distinct spellings |
| Ascii.DigitsFit | http/src/lib.rs:261-285 | every `u64` has at most 20 decimal digits, so the 20-byte array always has room |
| Ascii.AsciiIntFrom | http/src/lib.rs:273-297 | `AsciiInt::from` writes the digits right-aligned in 20 bytes of spaces |
| Ascii.AsStrDigits | http/src/lib.rs:268-270 | `as_str` of that array is exactly the decimal spelling |
| Io.Client.constructor | doorctrl/src/http/server.rs:36-47 | a connection that has sent nothing, with the given write budget and the given script of reads |
| HttpRequest.MethodFrom | doorctrl/src/http/request.rs:8-41 | a word is accepted only as the exact, case-sensitive name of the method it yields; anything else is "unknown http method" |
| HttpRequest.MethodRoundTrip | doorctrl/src/http/request.rs:8-41 | each of the seven method names, HEAD included, is recognised as that method |
| HttpRequest.RequestLine | doorctrl/src/http/request.rs:157-171 | the request line only ever sets the method and the path; its one error is "unknown http method" |
| HttpRequest.RequestLineWords | doorctrl/src/http/request.rs:157-171 | "METHOD path rest" sets exactly that method and that path, whatever follows the second space |
| HttpRequest.Resolve | doorctrl/src/http/request.rs:225-258 | the only error of `resolve_header` is the invalid Content-Length |
| HttpRequest.HeaderLine | doorctrl/src/http/request.rs:173-223 | a header line never changes the method, path, body or header block, a line without ':' changes nothing, and the only error is the invalid Content-Length |
| HttpRequest.HeaderLineClassified | doorctrl/src/http/request.rs:173-223 | a line "name:value" stores the classification of the trimmed name and value, or fails with its error |
| HttpRequest.HostLine | doorctrl/src/http/request.rs:189-201 | a Host line in any case of the name sets the host to the trimmed value and nothing else |
| HttpRequest.ContentLengthLine | doorctrl/src/http/request.rs:189-218 | a Content-Length line sets the length to the decimal value of the trimmed text, or fails the parse with "invalid content-length" |
| HttpRequest.ContentLengthNoBreakSpace | doorctrl/src/http/request.rs:183 | a Content-Length value followed by a no-break space is trimmed like one followed by an ASCII space |
| HttpRequest.LineEnd | doorctrl/src/http/request.rs:112-127 | the scan finds the first position where the current line ends with CRLF, and finds none only when there is none |
| HttpRequest.Parse | doorctrl/src/http/request.rs:89-155 | the byte-by-byte parser returns exactly what the line-level specification of `parse` returns |
| HttpRequest.ScanLines | doorctrl/src/http/request.rs:111-140 | the `for` loop over line ends agrees with the recursive scan from the start of the buffer |
| HttpRequest.HeadersDone | doorctrl/src/http/request.rs:113-125 | at the empty line, the body is the next Content-Length bytes, or the parse is Incomplete when fewer have arrived |
| HttpRequest.TakeLine | doorctrl/src/http/request.rs:127-139 | a complete line goes to the request-line parser first and to the header-line parser after, widening the header block, and the scan goes on from its end |
| HttpRequest.Conclude | doorctrl/src/http/request.rs:142-154 | after the loop: the header block is recorded, no empty line is Incomplete and an empty path is "malformed HTTP request" |
| HttpRequest.TryFrom | doorctrl/src/http/request.rs:65-93 | fewer than 15 bytes are Incomplete; a longer buffer that is not UTF-8 is "http request is not valid utf8"; otherwise it is `parse` |
| HttpRequest.ContainsCompleteHttpHeader | doorctrl/src/http/request.rs:77-87 | the result is the shortest prefix ending in CRLF CRLF, and None exactly when no prefix does |
| HttpRequest.GetBody | doorctrl/src/http/request.rs:288-299 | no body gives None; a body shorter than Content-Length is Partial with the missing count; otherwise Complete with the body |
| HttpRequest.ScanOk | doorctrl/src/http/request.rs:111-148 | a scan succeeds only past an empty line, with exactly Content-Length bytes of body after it |
| HttpRequest.ParsedBody | doorctrl/src/http/request.rs:112-125 | a request `parse` accepts has its header ended by an empty line and exactly Content-Length bytes of body, so `get_body` never reports it Partial |
| HttpRequest.NoHeaderEnd | doorctrl/src/http/request.rs:146-148 | without an empty line `parse` never succeeds |
| HttpRequest.ParseExtend | doorctrl/src/http/request.rs:112-125 | appending UTF-8 bytes to a buffer that parses gives the same request, so re-parsing a growing buffer is harmless once it parses |
| HttpRequest.ScanReference | doorctrl/src/http/request.rs:111-140 | on a request line, header lines, an empty line and a tail, the scan equals the line-level reference: the request line, each header line in order, then the body |
| HttpRequest.ParseLines | doorctrl/src/http/request.rs:89-155 | `parse` of such a buffer is the reference with the request-line and header-line parsers |
| HttpRequest.FindFrom | doorctrl/src/http/request.rs:264-282 | whatever the header search returns matches the query: the same unknown name ignoring ASCII case, or the same known field |
| HttpRequest.FindLines | doorctrl/src/http/request.rs:260-286 | on a header block of CRLF-ended lines, the search returns the first line that resolves to a matching header |
| HttpRequest.GetHeader | doorctrl/src/http/request.rs:260-286 | no header block gives None; otherwise the first matching line of the block |
| HttpRequest.ParseExample | doorctrl/src/http/request.rs:317-323 | the test request parses to GET "/index.html" with Content-Length 3 and body "abc" |
| HttpHeader.FirstField | doorctrl/src/http/header.rs:56-113 | the first field of the match whose name equals the given one ignoring ASCII case, and none only when no later field's name does |
| HttpHeader.Classify | doorctrl/src/http/header.rs:53-122 | never `Err(None)`; the only error is a Content-Length whose value `atoi` rejects; `Other` keeps the name and value and is chosen only when no field name matches |
| HttpHeader.NamesDistinct | doorctrl/src/http/header.rs:7-26 | no two field names, nor Content-Length, are equal ignoring case, so the order of the match does not matter |
| HttpHeader.ClassifyField | doorctrl/src/http/header.rs:56-113 | every spelling of a field name in any ASCII case is classified as that field with the value kept |
| HttpHeader.ClassifyContentLength | doorctrl/src/http/header.rs:115-119 | Content-Length in any case: its decimal value, or the error "invalid content-length" |
| HttpHeader.Write | doorctrl/src/http/header.rs:165-311 | the peer receives the header's write calls as far as the connection lets them through; the result is Ok exactly when all of them succeed, and Disconnected otherwise |
| HttpHeader.WriteValue | doorctrl/src/http/header.rs:304-310 | the separator, the value and CRLF are issued as three calls, all of them, whatever the earlier ones returned |
| HttpHeader.HeaderLine | doorctrl/src/http/header.rs:165-311 | what a header writes is exactly "Name: value" and CRLF, with a length in decimal and an accept key verbatim |
| HttpHeader.ContentLengthReadBack | doorctrl/src/http/header.rs:115-119 | a non-zero Content-Length the server writes is read back by the request classifier as the same length |
| HttpResponse.Reason | doorctrl/src/http/response.rs:26-39 | there is no status text exactly for an `Other` code outside 100..=599 |
| HttpResponse.ReasonStartsWithCode | doorctrl/src/http/response.rs:26-39 | every status text starts with the three digits of its code, the bare codes rendered by `AsciiInt` included |
| HttpResponse.StatusLine | doorctrl/src/http/response.rs:41-45 | the status line on the wire is "HTTP/1.1", a space, the text and CRLF |
| HttpResponse.WriteStatus | doorctrl/src/http/response.rs:22-47 | an invalid code is "invalid status code" with nothing written; otherwise the four calls go out as far as the connection allows, Ok exactly when all do and Disconnected otherwise |
| HttpResponse.StatusText | doorctrl/src/http/response.rs:25-39 | the text chosen, through `AsciiInt` for a bare code, is the status's text |
| HttpResponse.HeadText | doorctrl/src/http/response.rs:72-77 | the head of a response is the status line followed by the Server line |
| HttpResponse.BodyText | doorctrl/src/http/response.rs:154-169 | `with_body` writes "Content-Length: n" (omitted for an empty body), the blank line and the body |
| HttpResponse.UpgradePlan | doorctrl/src/http/response.rs:98-134 | a missing or refused key plans a 400 with no body and a protocol error; a present key plans 101, the accept value, Upgrade, Connection and the blank line |
| HttpResponse.Responder.constructor | doorctrl/src/http/response.rs:61-69 | a new responder has status 200 and a Server header naming the request's host, and is in the Init state |
| HttpResponse.Responder.WithStatus | doorctrl/src/http/response.rs:72-86 | an invalid status writes nothing; otherwise the status line and the Server line go out, and the responder moves to Sending with that status exactly when all eight calls succeed |
| HttpResponse.Responder.InitWithHeader | doorctrl/src/http/response.rs:89-96 | `with_header` in the Init state writes the stored status (200 unless set) and then the header |
| HttpResponse.Responder.WithHeader | doorctrl/src/http/response.rs:139-143 | `with_header` in the Sending state writes the header's calls, Ok exactly when they all succeed |
| HttpResponse.Responder.NoBody | doorctrl/src/http/response.rs:145-152 | `no_body` writes one CRLF |
| HttpResponse.Responder.WithBody | doorctrl/src/http/response.rs:154-169 | the Content-Length header, the blank line and the body; a failed blank line is the "connection reset by peer" network error, any other failure Disconnected |
| HttpResponse.Responder.Websocket | doorctrl/src/http/response.rs:171-178 | the blank line, then a WebSocket over the same connection |
| HttpResponse.Responder.Upgrade | doorctrl/src/http/response.rs:98-134 | what `upgrade` writes is the plan; a write that fails ends it as Disconnected, otherwise it ends as the plan says |
| HttpResponse.Responder.Refuse | doorctrl/src/http/response.rs:101-118 | a refused upgrade writes 400, the Server line and the blank line |
| HttpResponse.Responder.Accept | doorctrl/src/http/response.rs:123-133 | an accepted upgrade writes 101, the Server line, the three headers and the blank line, and hands over the connection |
| HttpResponse.Responder.UpgradeHeaders | doorctrl/src/http/response.rs:126-133 | Sec-WebSocket-Accept, "Upgrade: websocket", "Connection: Upgrade" and the blank line, in that order |
| ResponseExamples.NoBodyText | doorctrl/src/http/response.rs:72-152 | a status, one header and no body give the status line, the Server line, the header line and the blank line |
| ResponseExamples.DefaultText | doorctrl/src/http/response.rs:232-274 | the default response test's expected text |
| ResponseExamples.DefaultResponse | doorctrl/src/http/response.rs:232-274 | `with_status(OK)`, a Content-Type header and `no_body` on a fresh responder put exactly "HTTP/1.1 200 OK", "Server: RustServer", "Content-Type: text/html" and the blank line on the wire |
| ResponseExamples.CustomStatusText | doorctrl/src/http/response.rs:383-423 | status 401 has no phrase of its own and its line is "HTTP/1.1 401" |
| WebSocket.BigEndianRoundTrip | doorctrl/src/http/websocket.rs:168-175 | the shift-and-or reading of `to_be_bytes` gives the number back |
| WebSocket.Decode | doorctrl/src/http/websocket.rs:127-208 | `decode` as written: fewer than two bytes ask for exactly the missing ones; every decoded frame is final with a non-zero opcode, a length that fits `usize` and a key exactly when masked; a request for more bytes never goes past the 14-byte header buffer |
| WebSocket.Reread127 | doorctrl/src/http/websocket.rs:149-186 | after a 16-bit length of 127, the 64-bit re-read of the same bytes is always beyond `usize` |
| WebSocket.DecodeFixed | doorctrl/src/http/websocket.rs:127-208 | the decoder with a 16-bit length final, under the same guarantees as `decode` |
| WebSocket.HeaderFlags | doorctrl/src/http/websocket.rs:217-239 | the first two header bytes carry the fin bit, the opcode, the mask bit and the 7-bit length code, and read back as them |
| WebSocket.LenBytesRoundTrip | doorctrl/src/http/websocket.rs:241-267 | the 16-bit and 64-bit length forms read back as the length |
| WebSocket.DecodeFixedRoundTrip | doorctrl/src/http/websocket.rs:127-208 | decoding the header of a well-formed frame, whatever follows it, gives the frame back |
| WebSocket.DecodeFixedPrefix | doorctrl/src/http/websocket.rs:128-196 | a proper prefix of a header asks for more bytes, never more than the header still has |
| WebSocket.DecodeMissesLength127 | doorctrl/src/http/websocket.rs:149-177 | the header of a 127-byte frame, [0x82, 126, 0, 127], is asked for eight more bytes by `decode` as written, while the fixed decoder returns the frame |
| WebSocket.DecodeAgrees | doorctrl/src/http/websocket.rs:149-177 | away from a 16-bit length of 127, `decode` as written equals the fixed decoder |
| WebSocket.DecodeRoundTrip | doorctrl/src/http/websocket.rs:127-279 | for every length but 127, `decode` as written gives back the frame from its header |
| WebSocket.EncodeError | doorctrl/src/http/websocket.rs:211-259 | `encode` fails exactly when the buffer cannot hold the fixed header and the extended length |
| WebSocket.Flagged | doorctrl/src/http/websocket.rs:217-228 | the flags step changes only the first two bytes |
| WebSocket.Sized | doorctrl/src/http/websocket.rs:230-267 | the length step keeps the first byte and everything from the mask offset on |
| WebSocket.Keyed | doorctrl/src/http/websocket.rs:269-275 | the key step keeps everything before the mask offset |
| WebSocket.EncodedBySteps | doorctrl/src/http/websocket.rs:210-279 | the flags, length and key steps in turn leave the encoded buffer |
| WebSocket.EncodeFlags | doorctrl/src/http/websocket.rs:217-228 | the fin bit and opcode are XORed into the first byte, the mask bit into the second |
| WebSocket.EncodeLength | doorctrl/src/http/websocket.rs:230-267 | the length code is XORed into the second byte and the extended length assigned after it; a buffer too short for it is the matching error with nothing changed |
| WebSocket.EncodeKey | doorctrl/src/http/websocket.rs:269-273 | the four key bytes are XORed in at the mask offset |
| WebSocket.Encode | doorctrl/src/http/websocket.rs:210-279 | a buffer under two bytes is refused untouched; a buffer too short for the extended length is refused after the first two bytes are changed; otherwise the buffer is the encoded one and the result is the header length 2, 4 or 10, plus 4 with a key |
| WebSocket.EncodedZeroed | doorctrl/src/http/websocket.rs:210-279 | encoding into a zeroed buffer writes exactly the header and leaves zeros after it |
| WebSocket.EncodeDecode | doorctrl/src/http/websocket.rs:127-279 | decoding what `encode` wrote into a zeroed buffer gives the frame back |
| WebSocket.Masked | doorctrl/src/http/websocket.rs:281-287 | byte i of the payload is XORed with key byte i mod 4 |
| WebSocket.MaskedTwice | doorctrl/src/http/websocket.rs:281-287 | masking twice with the same key restores the payload |
| WebSocket.ApplyMask | doorctrl/src/http/websocket.rs:281-287 | with a key, the first `len` bytes are masked in place and nothing else changes; without one nothing changes |
| WebSocket.HeaderSpec | doorctrl/src/http/websocket.rs:55-71 | a header the loop returns is well-formed |
| WebSocket.ReceiveSpec | doorctrl/src/http/websocket.rs:44-89 | a received frame is well-formed and its payload has exactly its length and fits the buffer |
| WebSocket.ReceiveShrinks | doorctrl/src/http/websocket.rs:44-89 | `receive` never gives back input, and a frame received uses some up |
| WebSocket.HeaderSpecStream | doorctrl/src/http/websocket.rs:55-71 | with a prefix of a header in hand and the rest next on the stream, the loop reads exactly the rest and returns the frame |
| WebSocket.ReceiveStream | doorctrl/src/http/websocket.rs:44-89 | a masked frame on the stream is received whole: the frame, the unmasked payload, and the stream continuing after it |
| WebSocket.ReceiveMisses127 | doorctrl/src/http/websocket.rs:44-71 | as written, every masked 127-byte frame is refused as too long after 12 bytes are read |
| WebSocket.Decode127 | doorctrl/src/http/websocket.rs:149-186 | on such a frame `decode` asks for six more bytes after the first six, and then refuses the twelve |
| WebSocket.Websocket.ReceiveHeader | doorctrl/src/http/websocket.rs:45-71 | the first six bytes, then the header loop, with the decoder as written; nothing is written |
| WebSocket.Websocket.Receive | doorctrl/src/http/websocket.rs:44-89 | the frame and, at the front of the buffer, its unmasked payload, as the receive function says; the input left is the same and nothing is written |
| WebSocket.Websocket.SendHeader | doorctrl/src/http/websocket.rs:92-101 | the header `send` encodes is the header of a final, binary, unmasked frame of the data's length |
| WebSocket.Websocket.Send | doorctrl/src/http/websocket.rs:91-114 | the peer receives that header and then the data, as far as the connection lets them through; a failure is NetworkError |
| WebSocket.Websocket.constructor | doorctrl/src/http/websocket.rs:40-42 | a websocket over the given connection |
| HttpServer.HandleWebsocket | doorctrl/src/http/server.rs:15-21 | the default WebSocket handler always fails with UnsupportedRequest |
| HttpServer.Window | doorctrl/src/http/server.rs:50 | the parse window is the whole buffer as written, or the bytes received for this request once corrected |
| HttpServer.Next | doorctrl/src/http/server.rs:43-73 | one pass of the inner loop after a read: nothing read or a reset closes, any other read error is "unexpected network error"; after bytes, a parsed window ends the loop with that request, Incomplete reads on at the advanced offset, any other parse error is returned |
| HttpServer.ReadSpec | doorctrl/src/http/server.rs:42-74 | the inner loop keeps the buffer's length |
| HttpServer.ReadRemaining | doorctrl/src/http/server.rs:42-74 | the inner loop never reads back what it consumed, and a request consumes at least one read |
| HttpServer.ReadReceived | doorctrl/src/http/server.rs:41-50 | with the parse window limited to the received bytes, a request is parsed from exactly the bytes the peer sent for it since the offset was reset |
| HttpServer.HandledFirst | doorctrl/src/http/server.rs:40-75 | the handler gets the first request read, and the requests after it only when it answered without an upgrade |
| HttpServer.ServeReceived | doorctrl/src/http/server.rs:36-78 | with the received window, the requests handed to the handler are parsed from consecutive pieces of what the peer sent, one piece each, in order |
| HttpServer.ReadShort | doorctrl/src/http/server.rs:43-74 | fewer than 15 bytes since the offset was reset never make a request: the loop reads on until the stream ends |
| HttpServer.ServeShort | doorctrl/src/http/server.rs:36-78 | a peer that sends fewer than 15 bytes and then closes or resets gets nothing written, and `serve` returns Ok |
| HttpServer.ServeParseError | doorctrl/src/http/server.rs:63-64 | a first read the parser rejects with anything but Incomplete ends `serve` with that error before the handler is called |
| HttpServer.IssueAll | doorctrl/src/http/server.rs:53-56 | issuing the handler's calls puts exactly what the connection lets through on the wire |
| HttpServer.Classify | doorctrl/src/http/server.rs:44-73 | the loop's decision after a read, on the received window, agrees with the one-pass step |
| HttpServer.Server.constructor | doorctrl/src/http/server.rs:32-34 | the server keeps its handler |
| HttpServer.Server.ReadOnce | doorctrl/src/http/server.rs:43-73 | one read into the buffer array and the step it leads to, with the parse window corrected to the received bytes, agree with the inner-loop function |
| HttpServer.Server.ReadRequest | doorctrl/src/http/server.rs:41-74 | with the parse window corrected to the received bytes, the inner loop on the buffer array ends exactly as the inner-loop function says, with the same script left and the same buffer |
| HttpServer.Server.Answer | doorctrl/src/http/server.rs:40-75 | with the corrected window, one pass of the outer loop: either `serve` returns here with the handler's calls written, or it goes on with the rest of the script |
| HttpServer.Server.Serve | doorctrl/src/http/server.rs:36-78 | with the corrected window, `serve` returns what the specification function says, and the peer receives the handler's calls as far as the connection lets them through |
| ServerExamples.ParseWithTail | doorctrl/src/http/request.rs:112-125 | after the test request's header block, fewer than three bytes are Incomplete and three or more give a request whose body is the first three |
| ServerExamples.WholeBufferFillsBody | doorctrl/src/http/server.rs:50 | as written, two of three body bytes in a zeroed buffer give a request whose third body byte is a zero the peer never sent |
| ServerExamples.ReceivedBodyWaits | doorctrl/src/http/server.rs:43-63 | with the window limited to the received bytes, the same delivery is Incomplete, and the end of the stream closes the connection without a request |
| ServerExamples.ReceivedBodyComplete | doorctrl/src/http/server.rs:43-63 | once the third body byte arrives, the request carries exactly the body that was sent |
| ServerExamples.ServeTestScript | doorctrl/src/http/server.rs:221-255 | `serve` on the test's script answers the test request and ends with Ok, as written and as corrected |
| ServerExamples.TestChunksText | doorctrl/src/http/server.rs:249-254 | the handler's calls for the test request spell the expected response |
| ServerExamples.TestHttpServer | doorctrl/src/http/server.rs:221-255 | the server test: `serve` returns Ok and the peer receives "HTTP/1.1 200 OK", "Server: unspecified", "Content-Length: 7", the blank line and "working" |
| HttpCrate.MethodFrom | http/src/lib.rs:31-45 | a recognised word is exactly the name of the method returned |
| HttpCrate.MethodRoundTrip | http/src/lib.rs:31-45 | every one of the six method names is recognised as that method |
| HttpCrate.NoHead | http/src/lib.rs:31-45 | "HEAD" is not recognised: the crate has no HEAD method |
| HttpCrate.MethodInitial | http/src/lib.rs:31-45 | every method name is ASCII, has no space, colon or CR, and starts with G, P, D or O |
| HttpCrate.HeaderFrom | http/src/lib.rs:59-77 | `Err(None)` exactly when the name is none of the three kept names ignoring case; `Err(Some("invalid content-length"))` exactly for a Content-Length whose value `atoi` rejects; a kept length is the value's `atoi`, a kept Upgrade or key keeps the value verbatim; never `Null` |
| HttpCrate.HeaderFromKinds | http/src/lib.rs:59-77 | each of the three names, in any case, yields its own kind of header carrying the value |
| HttpCrate.RequestLine | http/src/lib.rs:154-168 | the only error is an unknown method; on success the method is the one named by the first word and the header slots are untouched |
| HttpCrate.FirstNull | http/src/lib.rs:181-182 | the first empty slot at or after `i`, and none only when every slot from there is taken |
| HttpCrate.HeaderLine | http/src/lib.rs:170-202 | the only error is an invalid Content-Length; method and path are kept, the slot count is kept, and no slot other than the first empty one changes |
| HttpCrate.HeaderLineFull | http/src/lib.rs:181-196 | with all three slots taken a header line is accepted and changes nothing |
| HttpCrate.HeaderLineFills | http/src/lib.rs:174-196 | "name: value" fills the first empty slot with the header of the trimmed name and value when it is kept, and changes nothing when the name is not kept |
| HttpCrate.RequestLineKeepsSlots | http/src/lib.rs:133-140 | handing the request line to the header parser as well, as the loop does, gives the same result as the request line alone |
| HttpCrate.NotAHeader | http/src/lib.rs:59-77 | a name starting with a method's first letter is not a kept header |
| HttpCrate.LineEnd | http/src/lib.rs:131-133 | the first index below `|data|` at which the bytes since the line start end with CRLF, and none only when no such index exists |
| HttpCrate.ScanLines | http/src/lib.rs:128-145 | the line loop yields exactly the fold of the request-line handler over the first line and the header handler over every later line, stopping at the first error |
| HttpCrate.LinesCons | http/src/lib.rs:131-145 | a line, CRLF and more bytes: that line is scanned first and the scan goes on with the rest |
| HttpCrate.LinesShift | http/src/lib.rs:131-145 | bytes before the line start do not change the lines scanned from it |
| HttpCrate.LinesOfBlock | http/src/lib.rs:131-145 | a header block made of lines without CRLF, ending in the empty line, is scanned back into exactly those lines |
| HttpCrate.ParseRequest | http/src/lib.rs:116-152 | the result is the parse specification: non-UTF-8 is refused first, then the fold over the lines, then a request without a path is malformed |
| HttpCrate.FoldKeepsSlots | http/src/lib.rs:128-145 | the fold keeps three slots and fails only with an unknown method or an invalid Content-Length |
| HttpCrate.ParseOutcome | http/src/lib.rs:116-152 | a parsed request has a non-empty path and three slots; a refusal is one of the four reasons `parse_request` names |
| HttpCrate.HeaderEnd | http/src/lib.rs:104-109 | the shortest prefix at or after `j` that ends with CRLF CRLF, and none only when no prefix does |
| HttpCrate.TryFrom | http/src/lib.rs:95-112 | fewer than 15 bytes are `NotReady`; otherwise the shortest prefix ending the header block is parsed, and without one the result is `NotReady` |
| HttpCrate.TryFromIgnoresTail | http/src/lib.rs:95-112 | once the header block is complete, bytes after it do not change the result |
| HttpCrate.TryFromWaits | http/src/lib.rs:95-112 | bytes holding no empty line are `NotReady` |
| HttpCrate.FirstOf | http/src/lib.rs:205-229 | the first slot at or after `i` holding a header of the kind, and none only when no slot from there does |
| HttpCrate.Lookup | http/src/lib.rs:214-231 | a value is found exactly when some slot holds a header of that kind |
| HttpCrate.ContentLen | http/src/lib.rs:204-212 | the length in the first Content-Length slot, and 0 when there is none |
| HttpCrate.GetHeader | http/src/lib.rs:214-231 | only the exact names "Sec-WebSocket-Key" and "Upgrade" are answered, each from the first slot of its kind; any other name gives none |
| HttpCrate.RequestLineOfParses | http/src/lib.rs:154-168 | "<method> <path> HTTP/1.1" sets that method and path and leaves all slots empty |
| HttpCrate.LengthLineParses | http/src/lib.rs:170-202 | "Content-Length: <n>" fills the first slot with that length |
| HttpCrate.ParseBlock | http/src/lib.rs:116-152 | a block of ASCII lines parses to what the line handlers give when folded over those lines, when that has a path |
| HttpCrate.ParseLengthRequest | http/src/lib.rs:331-360 | a request line followed by a Content-Length line parses to that method, that path and that length in the first slot, as the crate's parsing test expects |
| HttpCrateHeader.TryFrom | http/src/header.rs:62-82 | the only error is a Content-Length, in any case, whose value `atoi` rejects, reported as "invalid content-length"; a length is the value's `atoi`; `Other(name, value)` exactly when the name is none of the three known names ignoring case |
| HttpCrateHeader.TryFromKinds | http/src/header.rs:62-82 | Upgrade and Sec-WebSocket-Key, in any case, are classified as their own kind, keeping the value |
| HttpCrateHeader.Write | http/src/header.rs:22-60 | the client receives the header's writes as far as the connection lets them through, and nothing else changes; Upgrade and Sec-WebSocket-Key are refused as "invalid response header"; otherwise Ok exactly when every write got through, and "connnection reset by peer" when not |
| HttpCrateHeader.WriteLine | http/src/header.rs:28-58 | the name writes, the value and CRLF, as far as the connection lets them through; true exactly when all of them got through |
| HttpCrateHeader.WriteName | http/src/header.rs:29-54 | the fixed "Name: " text, or for `Other` the key and then ": " issued even after a failed key; true exactly when all got through |
| HttpCrateHeader.Value | http/src/header.rs:28-56 | the value text: the decimal length, the accept key's 28 bytes or the header's own text |
| HttpCrateHeader.ValueSent | http/src/header.rs:28-58 | the header's writes divide into the name writes, then the value, then CRLF, and all get through exactly when the name writes do and two more are allowed |
| HttpCrateHeader.NameFails | http/src/header.rs:28-58 | when a name write fails nothing after it is sent |
| HttpCrateHeader.Line | http/src/header.rs:22-60 | when every write succeeds the header puts exactly "Name: value" and CRLF on the wire |
| HttpCrateHeader.WrittenReadBack | http/src/header.rs:33-82 | a non-zero Content-Length, or an `Other` header with an unknown name, that is written is classified back as the same header |
| HttpCrateRequest.Initial | http/src/request.rs:94-100 | the request `parse_request` starts from: no path, no Content-Length, no body and every extra-header slot empty |
| HttpCrateRequest.RequestLine | http/src/request.rs:127-141 | the only error is an unknown method; on success only the method and path change, and the method is the one named by the first word |
| HttpCrateRequest.FirstEmpty | http/src/request.rs:160-165 | the first empty slot at or after `i`, and none only when every slot from there is taken |
| HttpCrateRequest.Store | http/src/request.rs:170-181 | storing a classified header keeps the method, path, body and number of slots |
| HttpCrateRequest.HeaderLine | http/src/request.rs:143-192 | the only error is an invalid Content-Length; method, path, body and the number of slots are kept |
| HttpCrateRequest.LengthTakesNoSlot | http/src/request.rs:172-175 | a "Content-Length: n" line sets the Content-Length field, replacing an earlier one, and touches no slot, full or not |
| HttpCrateRequest.OtherFillsFirstEmpty | http/src/request.rs:160-180 | any other header fills the first empty slot and leaves every other slot as it was |
| HttpCrateRequest.FullSlotsDrop | http/src/request.rs:177-180 | with every slot taken any other header is dropped and the request is unchanged |
| HttpCrateRequest.StorePacked | http/src/request.rs:160-180 | storing keeps the slots filled from the front |
| HttpCrateRequest.FoldPacked | http/src/request.rs:104-118 | parsing the lines keeps the slots filled from the front and their number unchanged |
| HttpCrateRequest.ParseRequest | http/src/request.rs:88-125 | the result is the parse specification: non-UTF-8 is refused first, then the request line once and every later line as a header line, then a request without a path is malformed |
| HttpCrateRequest.ParsedPacked | http/src/request.rs:88-125 | a parsed request has a non-empty path and exactly the requested number of slots, filled from the front |
| HttpCrateRequest.TryFromBytes | http/src/request.rs:54-71 | under 15 bytes the request is Incomplete; otherwise the shortest prefix ending in an empty line is parsed, and without one the request is Incomplete |
| HttpCrateRequest.ContainsRequestHeaders | http/src/request.rs:75-86 | the length of the shortest prefix ending with CRLF CRLF, and none only when no prefix does |
| HttpCrateRequest.ContentLen | http/src/request.rs:194-200 | the stored Content-Length, and 0 when none is stored |
| HttpCrateRequest.Lookup | http/src/request.rs:202-223 | an answer is a header stored in a slot from `i` on, of the same variant as the one asked for |
| HttpCrateRequest.GetHeader | http/src/request.rs:202-223 | the answer is the lookup from the first slot |
| HttpCrateRequest.LookupPacked | http/src/request.rs:202-223 | on slots filled from the front, a header of the asked variant is found exactly when one is stored, and it is the first one |
| HttpCrateRequest.GetHeaderIgnoresKey | http/src/request.rs:206-215 | as written, asking for the `Other` header "Host" answers the first `Other` header, "Accept" |
| HttpCrateRequest.LookupKeyed | http/src/request.rs:206-215 | corrected: an `Other` answer carries the key asked for, it is stored in a slot, and no slot before it matches |
| HttpCrateRequest.LookupKeyedAgrees | http/src/request.rs:202-223 | for every variant but `Other` the corrected lookup answers what `get_header` answers |
| HttpCrateRequest.LookupKeyedPacked | http/src/request.rs:206-215 | corrected, on slots filled from the front: nothing is found exactly when no stored header has the asked variant and, for `Other`, the asked key |
| HttpCrateRequest.LookupKeyedExample | http/src/request.rs:206-215 | the corrected lookup answers the "Host" header of the same request |
| HttpCrateResponse.Respond | http/src/response.rs:91-129 | an unknown code is refused as "unsupported http code" with nothing written; for 200, 400 and 404 the client receives the canned headers, the page length, the empty line and the page as far as the connection lets them through, Ok exactly when all four writes got through and the write error otherwise |
| HttpCrateResponse.LengthText | http/src/response.rs:113 | the page length in decimal |
| HttpCrateResponse.WriteFour | http/src/response.rs:115-126 | four writes in turn, each issued only after the one before succeeded; true exactly when all four got through |
| HttpCrateResponse.WriteThree | http/src/response.rs:147-157 | three writes in turn, each issued only after the one before succeeded; true exactly when all three got through |
| HttpCrateResponse.RespondOutput | http/src/response.rs:113-126 | a successful `respond` puts the headers, the decimal page length, CRLF CRLF and the page on the wire, and the length reads back as the page's length |
| HttpCrateResponse.CannedLengths | http/src/response.rs:17-87 | the three pages are 602, 119 and 107 bytes long |
| HttpCrateResponse.StatusLines | http/src/response.rs:7-49 | the status line each canned response starts with |
| HttpCrateResponse.RespondWebsocket | http/src/response.rs:133-160 | a failed accept-key encoding is refused before anything is written; otherwise the 101 headers, the accept key and the empty line are written as far as the connection lets them through, Ok exactly when all three got through |
| Config.DefaultMarkedIncomplete | doorctrl/src/config.rs:129-148 | the default record carries the magic in both marker slots and is not complete |
| Config.UpdatedFields | doorctrl/src/config.rs:151-197 | `update` never changes the magic or the certificate flag; the port changes only to a supplied value other than 0 and always to one; the TLS flag takes any supplied value and is otherwise kept |
| Config.UpdateKeepsComplete | doorctrl/src/config.rs:151-197 | an update never empties a field, so a complete record stays complete |
| Config.UpdateIdempotent | doorctrl/src/config.rs:151-197 | applying the same update twice is applying it once |
| Config.UpdateCompletes | doorctrl/src/config.rs:151-197 | an update supplying a filled device name, Wi-Fi name and password, MQTT host and password, with a non-zero port already set or supplied, makes any record complete |
| Config.BigEndian | doorctrl/src/config.rs:249-250 | two bytes, high byte first, that read back as the port |
| Config.Flag | doorctrl/src/config.rs:253-257 | the flag byte is 1 exactly when the flag is set, and otherwise 0 |
| Config.Layout | doorctrl/src/config.rs:227-267 | 516 bytes, starting with the first marker slot and ending with the second, with both flag bytes 0 or 1 |
| Config.DecodeSpec | doorctrl/src/config.rs:269-337 | "too small" exactly when the buffer is shorter than a record; the only other errors are no config and corrupt; a decoded record carries the magic in both marker slots |
| Config.Fields | doorctrl/src/config.rs:303-304 | the port is read big-endian from its two bytes |
| Config.DecodeErrors | doorctrl/src/config.rs:328-334 | no config exactly when the first slot lacks the magic, and corrupt exactly when the first slot has it and the last slot lacks it |
| Config.DecodeLayout | doorctrl/src/config.rs:227-337 | decoding what `encode` wrote gives the record back, whatever bytes follow it |
| Config.LayoutDecode | doorctrl/src/config.rs:227-337 | a decoded record encodes back to the bytes it came from, when both flag bytes were 0 or 1 |
| Config.SaveThenLoad | doorctrl/src/config.rs:199-225 | what `save` leaves in erased-then-programmed flash is loaded back as the saved record |
| Config.ProgramWithoutErase | doorctrl/src/config.rs:216-222 | programming the record over flash holding zeros, without the erase, leaves zeros, which load as no config |
| Config.Saved | doorctrl/src/config.rs:208-225 | `save` succeeds exactly when the record is complete and the erase and write both succeed; on success the first 4096 bytes are erased and the record is programmed at 0; a refused or failed erase leaves the flash as it was |
| Config.ConfigV1.Default | doorctrl/src/config.rs:129-148 | the new record is the default one: both marker slots hold the magic, port 1883, TLS off, certificate check on, every text field empty |
| Config.ConfigV1.Of | doorctrl/src/config.rs:110-127 | the new record holds exactly the given fields |
| Config.ConfigV1.Update | doorctrl/src/config.rs:151-197 | the record afterwards is the old one updated |
| Config.ConfigV1.Encode | doorctrl/src/config.rs:227-267 | a buffer shorter than a record is refused untouched; otherwise the front of the buffer holds the record's layout and the rest is untouched |
| Config.ConfigV1.Decode | doorctrl/src/config.rs:269-337 | the error, or a fresh record, that the decode specification gives for the buffer |
| Config.ConfigV1.Load | doorctrl/src/config.rs:199-206 | a failed read is "error reading config from storage"; otherwise the decode of the record's worth of bytes at the start of the flash |
| Config.ConfigV1.Save | doorctrl/src/config.rs:208-225 | the result and the flash contents afterwards are exactly those of the save specification |
| Config.UpdateExample | doorctrl/src/config.rs:384-424 | updating the default record with device name "mydoor" reads back "mydoor", as the update test expects |
| Config.LayoutExample | doorctrl/src/config.rs:442-479 | port 1024 is stored as 04 00, TLS on as 01, certificate checks off as 00, and the record decodes to the same fields, as the byte-layout test expects |
| ConfigValue.Message | doorctrl/src/config.rs:199-337 | every error the configuration code reports has a non-empty message text |
| ConfigValue.MagicSlotMarked | doorctrl/src/config.rs:129-132 | the marker slot starts with the magic "doorcontrolv1", so it is not empty |
| ConfigValue.NulFrom | doorctrl/src/config.rs:15 | the first NUL at or after `i`, or the slot's end when there is none |
| ConfigValue.AsStr | doorctrl/src/config.rs:13-24 | a prefix of the slot that is UTF-8 and holds no NUL; when not empty it runs up to the first NUL or the end; it is empty for a non-empty slot only when the text before the NUL is not UTF-8 |
| ConfigValue.TryFrom | doorctrl/src/config.rs:26-40 | accepted exactly when at most 64 bytes, else "input string too long (>64 bytes)"; the slot holds the text followed by NULs |
| ConfigValue.AsStrTryFrom | doorctrl/src/config.rs:13-40 | UTF-8 text without NUL that fits is read back unchanged from its slot |
| ConfigValue.AsStrCutsAtNul | doorctrl/src/config.rs:13-40 | text with a NUL is read back cut at the first NUL |
| ConfigValue.PickTakes | doorctrl/src/config.rs:152-156 | a supplied value whose first byte is not NUL is taken; a field only ever changes to such a value |
| ConfigValue.PickKeepsFilled | doorctrl/src/config.rs:152-156 | a filled field stays filled |
| ConfigValue.Program | doorctrl/src/config.rs:220 | programming a NOR-flash byte over an erased byte stores the new byte, and programming all ones leaves the byte as it was |
| ConfigValue.Erased | doorctrl/src/config.rs:216-219 | erasing sets exactly the bytes in the range to all ones and keeps the rest |
| ConfigValue.Programmed | doorctrl/src/config.rs:220 | programming changes only the bytes written, each to the AND of the old and new byte |
| ConfigValue.ProgramErased | doorctrl/src/config.rs:216-222 | programming erased flash stores exactly the bytes written |
| ConfigValue.NorFlash.Read | doorctrl/src/config.rs:199-203 | the bytes at the offset, unless the device fails or the range is out of bounds |
| ConfigValue.NorFlash.Erase | doorctrl/src/config.rs:216-219 | succeeds exactly when the device does and the range is in bounds; the flash is then the erased flash, and otherwise unchanged |
| ConfigValue.NorFlash.Write | doorctrl/src/config.rs:220-222 | succeeds exactly when the device does and the range is in bounds; the flash is then the programmed flash, and otherwise unchanged |
| ConfigValue.Overwritten | doorctrl/src/conf/mod.rs:208 | the written range holds the bytes and the rest is kept |
| ConfigValue.Storage.Read | doorctrl/src/conf/mod.rs:129-133 | the bytes at the offset, unless the device fails or the range is out of bounds |
| ConfigValue.Storage.Write | doorctrl/src/conf/mod.rs:208-210 | succeeds exactly when the device does and the range is in bounds; the storage is then overwritten, and otherwise unchanged |
| ConfigValue.Put | doorctrl/src/config.rs:234-265 | `copy_from_slice`: the bytes land at the offset, everything else in the buffer is kept |
| ConfigValue.NorFlash.constructor | doorctrl/src/config.rs:197-223 | a flash device holding the given bytes, failing reads, erases or writes as given |
| ConfigValue.Storage.constructor | doorctrl/src/conf/mod.rs:127-135 | a storage device holding the given bytes, failing reads or writes as given |
| ConfCrate.DefaultMarkedIncomplete | conf/src/lib.rs:128-144 | the default record carries the magic in both marker slots and is not complete |
| ConfCrate.UpdateKeepsComplete | conf/src/lib.rs:147-178 | an update keeps the magic and never empties a field, so a complete record stays complete |
| ConfCrate.UpdateIdempotent | conf/src/lib.rs:147-178 | applying the same update twice is applying it once |
| ConfCrate.Layout | conf/src/lib.rs:245-269 | 512 bytes, starting with the first marker slot and ending with the second |
| ConfCrate.LoadSpec | conf/src/lib.rs:186-237 | the only errors are no config and corrupt; a loaded record carries the magic in both marker slots |
| ConfCrate.LoadErrors | conf/src/lib.rs:229-235 | no config exactly when the first slot lacks the magic, and corrupt exactly when the first slot has it and the last slot lacks it |
| ConfCrate.LoadLayout | conf/src/lib.rs:186-269 | loading what `save` laid out gives the record back, whatever follows it |
| ConfCrate.LayoutLoad | conf/src/lib.rs:186-269 | every record `load` accepts lays out to exactly the bytes it came from |
| ConfCrate.SaveThenLoad | conf/src/lib.rs:180-280 | what `save` leaves in erased-then-programmed flash is loaded back as the saved record |
| ConfCrate.ConfigV1.Default | conf/src/lib.rs:128-144 | the new record is the default one: both marker slots hold the magic and every text field is empty |
| ConfCrate.ConfigV1.Of | conf/src/lib.rs:112-126 | the new record holds exactly the given fields |
| ConfCrate.ConfigV1.Update | conf/src/lib.rs:147-178 | the record afterwards is the old one updated |
| ConfCrate.ConfigV1.Load | conf/src/lib.rs:180-238 | a failed read is "error reading config from storage"; otherwise the load specification of the record's worth of bytes at the start of the flash |
| ConfCrate.ConfigV1.Encode | conf/src/lib.rs:245-269 | the buffer holds the record's layout |
| ConfCrate.ConfigV1.Save | conf/src/lib.rs:240-280 | an incomplete record is refused with the flash untouched; a failed erase leaves the flash untouched; a failed write leaves it erased; otherwise the first 4096 bytes are erased and the record is programmed at 0 |
| ConfCrate.UpdateExample | conf/src/lib.rs:320-360 | updating the default record with device name "mydoor" reads back "mydoor" and leaves the MQTT host empty, as the update test expects |
| DoorctrlConf.Deserialize | doorctrl/src/conf/mod.rs:40-66 | accepted exactly when at most 64 bytes, else "value more than 64 bytes" |
| DoorctrlConf.DeserializeIsTryFrom | doorctrl/src/conf/mod.rs:40-66 | the value visitor accepts exactly what the later `try_from` (doorctrl/src/config.rs:26-40) accepts and pads the same way; only the error text differs |
| DoorctrlConf.UpdateClears | doorctrl/src/conf/mod.rs:111-127 | unlike the later generations, an update supplying an empty device name empties the field, and the magic is kept |
| DoorctrlConf.UpdateIdempotent | doorctrl/src/conf/mod.rs:111-127 | applying the same update twice is applying it once |
| DoorctrlConf.Layout | doorctrl/src/conf/mod.rs:185-206 | 448 bytes, starting with the first marker slot and ending with the second |
| DoorctrlConf.LoadSpec | doorctrl/src/conf/mod.rs:135-181 | the only errors are no config and corrupt; a loaded record carries the magic in both marker slots |
| DoorctrlConf.LoadErrors | doorctrl/src/conf/mod.rs:173-179 | no config exactly when the first slot lacks the magic, and corrupt exactly when the first slot has it and the last slot lacks it |
| DoorctrlConf.LoadLayout | doorctrl/src/conf/mod.rs:135-206 | loading what `save` laid out gives the record back, whatever follows it |
| DoorctrlConf.SaveThenLoad | doorctrl/src/conf/mod.rs:129-213 | storage overwrites, so what `save` wrote loads back as the saved record whatever the storage held before |
| DoorctrlConf.ConfigV1.Default | doorctrl/src/conf/mod.rs:92-107 | the new record is the default one: both marker slots hold the magic and every text field is empty |
| DoorctrlConf.ConfigV1.Of | doorctrl/src/conf/mod.rs:78-90 | the new record holds exactly the given fields |
| DoorctrlConf.ConfigV1.Update | doorctrl/src/conf/mod.rs:111-127 | the record afterwards is the old one updated |
| DoorctrlConf.ConfigV1.Load | doorctrl/src/conf/mod.rs:129-182 | a failed read is "error reading config from storage"; otherwise the load specification of the record's worth of bytes at the start of the storage |
| DoorctrlConf.ConfigV1.Encode | doorctrl/src/conf/mod.rs:185-206 | the buffer holds the record's layout |
| DoorctrlConf.ConfigV1.Save | doorctrl/src/conf/mod.rs:184-213 | no completeness check and no erase: a failed write leaves the storage untouched, otherwise the record overwrites its start |
| DoorTask.PinFor | doorctrl/src/door/mod.rs:102-116 | the lock pin is low exactly for Locked |
| DoorTask.DoorFor | doorctrl/src/door/mod.rs:71-90 | a low reed level means Closed and only a low one does |
| DoorTask.Step | doorctrl/src/door/mod.rs:50-98 | one pass of the loop publishes at most one state, at the end of the log, and keeps everything published before |
| DoorTask.DoorStates | doorctrl/src/door/mod.rs:78-87 | the door states of the log, in order, never more than the log holds |
| DoorTask.LockStates | doorctrl/src/door/mod.rs:104-113 | the lock states of the log, in order, never more than the log holds |
| DoorTask.Start | doorctrl/src/door/mod.rs:30-48 | `new` then the first read of `run`: nothing published, the task invariant holds, and the reed level is high exactly when the read says high |
| DoorTask.StepKeepsConsistent | doorctrl/src/door/mod.rs:50-98 | one pass keeps the invariant: published door states alternate and the last matches the last reed level, and the last published lock state matches the lock pin |
| DoorTask.RunKeepsConsistent | doorctrl/src/door/mod.rs:50-98 | the invariant holds after any sequence of passes |
| DoorTask.EdgePublishes | doorctrl/src/door/mod.rs:70-91 | after an edge a door state is published exactly when the level read differs from the last one, and it is the state the level means; the level is remembered either way |
| DoorTask.CommandPublishes | doorctrl/src/door/mod.rs:58-116 | a command sets the pin to match and publishes the commanded lock state, unless setting the pin failed, which changes nothing |
| DoorTask.RunExtends | doorctrl/src/door/mod.rs:50-98 | a run only appends to the log, at most one state per event |
| DoorTask.DoorCtrl.constructor | doorctrl/src/door/mod.rs:30-43 | the reed level starts low and nothing is published |
| DoorTask.DoorCtrl.Lock | doorctrl/src/door/mod.rs:102-108 | the result tells whether setting the pin succeeded, and the task state afterwards is one pass of the loop on a Locked command |
| DoorTask.DoorCtrl.Unlock | doorctrl/src/door/mod.rs:110-116 | the result tells whether setting the pin succeeded, and the task state afterwards is one pass of the loop on an Unlocked command |
| DoorTask.DoorCtrl.Handle | doorctrl/src/door/mod.rs:57-98 | the task state afterwards is one pass of the loop on the event |
| DoorTask.DoorCtrl.RunTask | doorctrl/src/door/mod.rs:45-100 | the first read raises the reed level when it says high, and then the events are handled in order |
| DoorTask.RunFromNew | doorctrl/src/door/mod.rs:30-100 | the task started by `new` and `run` keeps its invariant over any sequence of events |
| DoorTask.OpenCloseExample | doorctrl/src/door/mod.rs:70-91 | with the door shut at start, then opened twice and closed, the task publishes Open then Closed and nothing for the repeated level |
| HassTopic.Topic | doorctrl/src/hass/topic.rs:20-90 | a topic is the prefix, then the 12-byte device id, then the suffix, and nothing else |
| HassTopic.MkTopic | doorctrl/src/hass/topic.rs:23-32 | a fresh array holding the prefix, the device id and the suffix, filled by three copies into a zeroed array |
| HassTopic.MkAvailabilityTopic | doorctrl/src/hass/topic.rs:20-33 | a fresh array of 26 bytes: "doorctl/", the device id, "/avail" |
| HassTopic.MkLockCommandTopic | doorctrl/src/hass/topic.rs:35-48 | a fresh array of 30 bytes: "doorctl/", the device id, "/lock/cmd/" |
| HassTopic.MkLockStateTopic | doorctrl/src/hass/topic.rs:50-62 | a fresh array of 31 bytes: "doorctl/", the device id, "/lock/state" |
| HassTopic.MkSensorStateTopic | doorctrl/src/hass/topic.rs:64-76 | a fresh array of 31 bytes: "doorctl/", the device id, "/reed/state" |
| HassTopic.MkDiscoveryTopic | doorctrl/src/hass/topic.rs:78-90 | a fresh array of 40 bytes: "homeassistant/device/", the device id, "/config" |
| HassTopic.TopicLengths | doorctrl/src/hass/topic.rs:9-18 | the length constants are 26, 30, 31, 31 and 40 |
| HassTopic.DeviceIdAt | doorctrl/src/hass/topic.rs:26-87 | the device id sits at bytes 8 to 20 of each doorctl topic and 21 to 33 of the discovery topic, so it can be read back |
| HassTopic.TopicsInjective | doorctrl/src/hass/topic.rs:20-90 | distinct devices get distinct topics of every kind |
| HassTopic.TopicsDistinct | doorctrl/src/hass/topic.rs:1-18 | the five topics of one device are pairwise different |
| HassTopic.TopicsAreUtf8 | doorctrl/src/hass/topic.rs:20-90 | a topic built from ASCII parts is valid UTF-8, so turning it into text cannot fail for a hex id |
| HassTopic.LockCommandExample | doorctrl/src/hass/topic.rs:3-48 | for the id "aabbccddeeff" the lock command topic is "doorctl/aabbccddeeff/lock/cmd/", trailing slash included |
| Hass.TopicsOf | doorctrl/src/hass/mod.rs:60-69 | the five topics of the device; the lock state and reed state topics differ |
| Hass.CommandFor | doorctrl/src/hass/mod.rs:168-181 | Locked exactly for the payload "LOCK", Unlocked exactly for "UNLOCK", anything else asks for nothing |
| Hass.CommandRoundTrip | doorctrl/src/hass/mod.rs:168-181 | each command's payload is understood as that command, and only that payload is |
| Hass.StateMessage | doorctrl/src/hass/mod.rs:186-245 | a state is reported on the lock state topic when it is a lock state and on the reed state topic otherwise, never retained |
| Hass.StateRoundTrip | doorctrl/src/hass/mod.rs:186-245 | a subscriber recovers every reported state from its publish, and distinct states give distinct publishes |
| Hass.Handle | doorctrl/src/hass/mod.rs:167-253 | one pass of the loop takes at most one action |
| Hass.ConnectSpec | doorctrl/src/hass/mod.rs:71-118 | `connect` fails exactly when the broker connection, the discovery publish or the availability publish fails |
| Hass.LastCommand | doorctrl/src/hass/mod.rs:172-177 | the latest command sent, when there is one, was sent |
| Hass.ChannelWithoutCommands | doorctrl/src/hass/mod.rs:172-177 | actions other than commands leave the command channel alone |
| Hass.ChannelAppend | doorctrl/src/hass/mod.rs:172-177 | the channel after two stretches of actions is the channel after the first, then the second |
| Hass.ChannelLatest | doorctrl/src/hass/mod.rs:172-177 | because the channel is cleared before each send, it holds exactly the latest command, whatever it held before |
| Hass.LoopSnoc | doorctrl/src/hass/mod.rs:159-254 | while nothing has failed, one more race winner extends the loop's outcome by what handling it does |
| Hass.LoopStep | doorctrl/src/hass/mod.rs:159-254 | one pass grows the outcome by what handling the next winner does, and a failure there is the whole outcome |
| Hass.LoopStopped | doorctrl/src/hass/mod.rs:182-251 | once the loop has failed, later race winners change nothing |
| Hass.LoopAppend | doorctrl/src/hass/mod.rs:159-254 | the loop over two stretches of winners is the loop over the first joined with the loop over the second, while the first does not fail |
| Hass.LoopStopsAtFirstError | doorctrl/src/hass/mod.rs:182-251 | the loop ends at the first failing winner, and nothing after it is handled |
| Hass.LoopNoError | doorctrl/src/hass/mod.rs:159-254 | the loop ends without error exactly when no winner fails |
| Hass.RunOrder | doorctrl/src/hass/mod.rs:120-165 | a session that gets as far as its loop connects, publishes the discovery document unretained, publishes "online" retained on the availability topic and subscribes to the command topic, in that order |
| Hass.WillMatchesAvailability | doorctrl/src/hass/mod.rs:104-143 | the will and the online message share the availability topic with different payloads |
| Hass.LockCommandEchoes | doorctrl/src/hass/mod.rs:168-215 | a command from the broker is "LOCK" or "UNLOCK", and when the door task carries it out it is reported back as "LOCKED" or "UNLOCKED" respectively |
| Hass.RunParts | doorctrl/src/hass/mod.rs:120-255 | `run` is the connection, then the subscription, then the loop, each stopping the rest when it fails |
| Hass.RunChannel | doorctrl/src/hass/mod.rs:120-255 | connecting and subscribing send no command: the channel after `run` is what the loop leaves in it |
| Hass.MqttContext.constructor | doorctrl/src/hass/mod.rs:60-69 | the context holds the device id and its five topics, with nothing sent yet |
| Hass.MqttContext.Connect | doorctrl/src/hass/mod.rs:71-118 | the actions taken and the error are those of the connect specification; the command channel is unchanged |
| Hass.MqttContext.HandleWork | doorctrl/src/hass/mod.rs:167-253 | the actions taken, the error and the command channel are those of handling the race winner |
| Hass.MqttContext.Serve | doorctrl/src/hass/mod.rs:159-254 | the actions taken, the error and the command channel are those of the loop over the race winners |
| Hass.MqttContext.Run | doorctrl/src/hass/mod.rs:120-255 | the actions taken, the error and the command channel are those of the run specification |
| Hass.MqttContext.Listen | doorctrl/src/hass/mod.rs:151-254 | the subscription, then, unless it failed, the loop |
| FirmwareWeb.HandleRequest | firmware/src/web/mod.rs:54-85 | "/" and "/favicon.ico" are answered 200 with their file and any other path but "/ws" 404 with the 404 page, the writes going out as far as the connection lets them and `Ok(None)` exactly when all got through; "/ws" performs the upgrade and yields a fresh WebSocket on the same connection exactly when the upgrade writes got through and the request qualified; errors are HTTP errors and no input is consumed |
| FirmwareWeb.AnswerOnWire | firmware/src/web/mod.rs:61-81 | a page on the wire is the status line and Server line, "Content-Length: n", the blank line and the file |
| FirmwareWeb.ShortFrameOnWire | firmware/src/web/mod.rs:141-186 | a short frame the device sends is 0x82 (final, binary), its unmasked length and the data |
| FirmwareWeb.FrameKinds | firmware/src/web/mod.rs:113-186 | state updates, configurations and notifications are told apart by their first byte (1, 2, 3) and carry their content after it |
| FirmwareWeb.MessageFits | firmware/src/web/mod.rs:276-279 | every save error's message fits a notification frame |
| FirmwareWeb.Dispatch | firmware/src/web/mod.rs:227-292 | the input and pending state updates are untouched; commands are only ever sent for a state update of at least two bytes, and then they are what its second byte asks for; configuration, flash and output change only for a configuration update that parses; the session goes on only for a payload of at least two bytes of type 1 or 2 |
| FirmwareWeb.SentFrame | firmware/src/web/mod.rs:127-186 | a `send` with two writes to spare succeeds and puts the whole frame on the wire |
| FirmwareWeb.DispatchReset | firmware/src/web/mod.rs:249-287 | a dispatch keeps the configuration's magic; it ends the session in a reset only when the updated configuration is complete, the flash holds it so that the firmware boots it in normal mode, and the client was last sent "Config saved, rebooting..." |
| FirmwareWeb.ResetBootsSaved | firmware/src/web/mod.rs:221-304 | a session only ends in a reset after a complete configuration was saved so that the next boot uses it, and the client was told so |
| FirmwareWeb.LoopGoesOn | firmware/src/web/mod.rs:221-304 | a turn in which a client frame wins and is dispatched without ending the session leaves the loop to go on from the new state |
| FirmwareWeb.AskStep | firmware/src/web/mod.rs:240-243 | a masked client frame [1, lock state] adds that command to the channel and the loop goes on with the rest of the stream |
| FirmwareWeb.CommandsFollowClient | firmware/src/web/mod.rs:221-304 | lock commands from the browser reach the command channel in the order asked, nothing is written back, and the close frame ends the session with `Ok` |
| FirmwareWeb.CloseStep | firmware/src/web/mod.rs:227-230 | the close frame ends the session with `Ok` and changes nothing but the input |
| FirmwareWeb.GreetingOnWire | firmware/src/web/mod.rs:198-210 | with both states stored and writes to spare, the client first gets the door state, then the lock state, then the configuration, each in its own frame |
| FirmwareWeb.ServiceState.constructor | firmware/src/web/mod.rs:41-46 | the shared state holds the flash, the configuration and the two stored states given |
| FirmwareWeb.HttpClientHandler.constructor | firmware/src/web/mod.rs:101-111 | the handler holds the shared state, the command channel and the state channel given |
| FirmwareWeb.HttpClientHandler.SendState | firmware/src/web/mod.rs:141-168 | the state's two bytes go out in one frame as far as the connection lets them; Ok exactly when the frame's two writes got through, and a network error otherwise |
| FirmwareWeb.HttpClientHandler.SendNotification | firmware/src/web/mod.rs:170-186 | type 3 and the text go out in one frame; Ok exactly when the frame's two writes got through |
| FirmwareWeb.HttpClientHandler.SendConfig | firmware/src/web/mod.rs:113-139 | JSON of 1024 bytes or more fails to serialise and nothing is sent; otherwise type 2 and the JSON go out in one frame, Ok exactly when both writes got through |
| FirmwareWeb.HttpClientHandler.OnPayload | firmware/src/web/mod.rs:232-292 | the session afterwards and its ending are those of the dispatch specification |
| FirmwareWeb.HttpClientHandler.SaveAndSend | firmware/src/web/mod.rs:263-281 | the save, then the notification of how it went, as the save-and-notify specification says |
| FirmwareWeb.HttpClientHandler.Loop | firmware/src/web/mod.rs:221-304 | the session afterwards and its ending are those of the loop specification |
| FirmwareWeb.HttpClientHandler.Greet | firmware/src/web/mod.rs:198-210 | the stored door state, the stored lock state and the configuration are sent, as the greeting specification says |
| FirmwareWeb.HttpClientHandler.RunWs | firmware/src/web/mod.rs:188-304 | the session afterwards and its ending are those of the `run_ws` specification, and the subscriber's place is given back unless the device resets |
| DoorctrlWeb.RunWs | doorctrl/src/web/mod.rs:167-247 | the result and the connection, command channel and subscriber afterwards are those of the `run_ws` specification |
| DoorctrlWeb.TakeEnds | doorctrl/src/web/mod.rs:179-224 | on an exhausted stream a one-byte read reports the clean end exactly when the stream ends cleanly; otherwise the read leaves a stream that ends the same way |
| DoorctrlWeb.TakeOne | doorctrl/src/web/mod.rs:179-188 | a one-byte read from a stream that has bytes delivers its first byte and leaves the rest |
| DoorctrlWeb.WsFollowsStream | doorctrl/src/web/mod.rs:176-247 | with no state messages, the commands sent are those the client's bytes ask for, however they are split into reads; nothing is written; the result is `Ok` for a clean end and an error otherwise |
| DoorctrlWeb.WsStateStep | doorctrl/src/web/mod.rs:184-188 | with no state message waiting, a state-update type byte makes `run_ws` read the second byte |
| DoorctrlWeb.WsFollowsCommand | doorctrl/src/web/mod.rs:187-206 | a state-update message carries out the command its second byte names, and the session goes on as the stream says |
| DoorctrlWeb.SecondEnds | doorctrl/src/web/mod.rs:197-204 | a state-update message cut short ends the session with `Ok` on a clean end and "websocket finished with error" otherwise, sending nothing |
| DoorctrlWeb.EchoedStates | doorctrl/src/web/mod.rs:186-239 | a client writing back a lock-state message commands that state; one writing back a door-state message commands nothing |
| DoorctrlWeb.WsWriteStep | doorctrl/src/web/mod.rs:225-243 | a state message that wins the race is written first; without writes to spare the session ends with "error writing to websocket" |
| DoorctrlWeb.WsWritesStates | doorctrl/src/web/mod.rs:225-243 | the messages written are the state updates that won their race, in order, and then the session goes on reading |
| DoorctrlWeb.WsWriteFails | doorctrl/src/web/mod.rs:240-243 | a state message that cannot be written ends the session before anything more is read; the messages before it are written |
| DoorctrlWeb.Messages | doorctrl/src/web/mod.rs:227-239 | one two-byte message per state |
| DoorctrlWeb.ReadSpec | doorctrl/src/web/mod.rs:66-162 | the bytes gathered never exceed the 1024-byte buffer, and a request handed on has used up some of the stream |
| DoorctrlWeb.ReadStep | doorctrl/src/web/mod.rs:73-154 | one read that delivers bytes appends them; an incomplete request reads on, a parsed one is handed on with exactly the bytes so far, and a protocol error drops the connection |
| DoorctrlWeb.ReadDelivers | doorctrl/src/web/mod.rs:66-162 | the request handed on is what `try_from` makes of exactly the bytes received for it, and they are the front of the client's stream |
| DoorctrlWeb.ReadMore | doorctrl/src/web/mod.rs:145-148 | an incomplete request reads on: what a later read delivers extends the bytes of this one |
| DoorctrlWeb.FullBufferCloses | doorctrl/src/web/mod.rs:73-78 | a request that does not fit the buffer is never handed on: with the buffer full the next read delivers nothing and the connection is closed |
| DoorctrlWeb.ReadOnce | doorctrl/src/web/mod.rs:73-161 | one read into the free part of the buffer: when it reads on the offset grows and stream is used up; in every case the outcome is the read specification's; nothing is written |
| DoorctrlWeb.ReadRequest | doorctrl/src/web/mod.rs:66-162 | the request handed on, or why not, and the stream left, are those of the read specification from an empty buffer; nothing is written |
| DoorctrlWeb.Respond | doorctrl/src/web/mod.rs:99-136 | answering a page consumes no input and sends no command |
| DoorctrlWeb.UpgradeSpec | doorctrl/src/web/mod.rs:115-135 | the next request is read only with nothing changed; the connection is closed, input consumed or commands sent only for a request whose Upgrade header is "websocket" |
| DoorctrlWeb.Page | doorctrl/src/web/mod.rs:113-141 | a page never stops the service, consumes no input and sends no command; the next request is read exactly when the four writes got through |
| DoorctrlWeb.RouteSpec | doorctrl/src/web/mod.rs:113-141 | the next request is read with no input consumed and no command sent; anything else that consumes input or sends commands is an upgrade |
| DoorctrlWeb.HandleSpec | doorctrl/src/web/mod.rs:91-143 | the next request is read with no input consumed and no command sent; only a request without a body that upgrades consumes input, sends commands or stops the service |
| DoorctrlWeb.Route | doorctrl/src/web/mod.rs:113-141 | the flow and the state afterwards are those of the routing specification |
| DoorctrlWeb.AnswerPage | doorctrl/src/web/mod.rs:114-141 | the flow and the state afterwards are those of the page specification |
| DoorctrlWeb.Upgrade | doorctrl/src/web/mod.rs:115-135 | the flow and the state afterwards are those of the upgrade specification |
| DoorctrlWeb.Handle | doorctrl/src/web/mod.rs:83-143 | the flow and the state afterwards are those of the handling specification |
| DoorctrlWeb.Serve | doorctrl/src/web/mod.rs:63-163 | the result and the state afterwards are those of the specification of the request loop of one connection |
| DoorctrlWeb.NonGetAnsweredTwice | doorctrl/src/web/mod.rs:104-114 | a request for "/" that is not a GET and has no body is answered twice, the 400 page then the index page, and the next request is read |
| Channels.CommandSender.constructor | firmware/src/bin/main.rs:66-67 | a new command channel has carried no command |
| Channels.CommandSender.Send | doorctrl/src/web/mod.rs:190-191 | a sent command is appended, after every earlier one |
| Channels.StateSubscriber.constructor | firmware/src/web/mod.rs:212-219 | a subscriber starts with the given order of arrivals |
| Channels.StateSubscriber.Next | doorctrl/src/web/mod.rs:178-183 | one `select`: the first pending arrival decides it, and it is used up; with none left the client wins |
| Channels.StateChannel.constructor | firmware/src/bin/main.rs:69-70 | a channel with the given number of subscribers |
| Channels.StateChannel.Subscribe | firmware/src/web/mod.rs:212-219 | a subscription succeeds exactly when fewer than six places are taken, and then takes one |
| Channels.StateChannel.Unsubscribe | firmware/src/web/mod.rs:212-219 | dropping a subscriber gives its place back |
| StateBytes.StateMessage | firmware/src/web/mod.rs:141-168 | a state update is two bytes, the first the state-update type 1 |
| StateBytes.StateMessageInjective | firmware/src/web/mod.rs:149-162 | distinct states are sent as distinct messages |
| StateBytes.Command | firmware/src/web/mod.rs:241-248 | byte 1 asks to lock, byte 2 to unlock, every other byte asks for nothing |
| StateBytes.CommandOfMessage | doorctrl/src/web/mod.rs:186-239 | a lock state's message sent back asks for that lock state; a door state's asks for nothing |
| Ws2812.Packet | firmware/src/ws2812/mod.rs:125-141 | one LED's packet is 24 pulse codes, green bits then red then blue, most significant first; a one is high 14 and low 12 ticks, a zero high 7 and low 16 |
| Ws2812.ByteCode | firmware/src/ws2812/mod.rs:130-137 | a byte is eight pulse codes, most significant bit first |
| Ws2812.PacketIsGrb | firmware/src/ws2812/mod.rs:129 | the packet is the green byte's codes, then the red's, then the blue's |
| Ws2812.ByteCodeValue | firmware/src/ws2812/mod.rs:115-137 | the eight codes of a byte, read back as bits, are that byte |
| Ws2812.PacketDecodes | firmware/src/ws2812/mod.rs:125-141 | an LED decodes green from pulses 0-7, red from 8-15 and blue from 16-23 of its packet |
| Ws2812.PacketInjective | firmware/src/ws2812/mod.rs:125-141 | distinct colours give distinct packets |
| Ws2812.Repeat | firmware/src/ws2812/mod.rs:95-98 | `num` copies of a packet are `num` times as long |
| Ws2812.Frame | firmware/src/ws2812/mod.rs:89-102 | the frame for `num` LEDs is `num * 24 + 1` pulse codes |
| Ws2812.FrameLeds | firmware/src/ws2812/mod.rs:95-100 | LED `i` of the chain gets pulses `24 * i` to `24 * i + 23`, which are the packet, and the frame ends with the end marker |
| Ws2812.WS2812B.constructor | firmware/src/ws2812/mod.rs:43-61 | a new driver holds the colour (0, 0, 0) and has shown nothing |
| Ws2812.WS2812B.BuildPacket | firmware/src/ws2812/mod.rs:125-141 | the array built is the packet of the driver's colour; the same code is at doorctrl/src/ws2812/mod.rs:121-137 |
| Ws2812.WS2812B.Play | firmware/src/ws2812/mod.rs:83-106 | 255 or more LEDs are refused with `TooManyLeds` and nothing is sent; otherwise the frame of `num` packets and the end marker is transmitted, or the channel's error returned; the colour is unchanged; the same code is at doorctrl/src/ws2812/mod.rs:79-102 |
| Ws2812.WS2812B.Dispatch | firmware/src/ws2812/mod.rs:108-111 | the channel shows the first `n` codes, or fails and shows nothing |
| Ws2812.WS2812B.SetColors | firmware/src/ws2812/mod.rs:63-69 | the fields take the new colour, even when the transmission fails, and one LED is played in it; the same code is at doorctrl/src/ws2812/mod.rs:59-65 |
| Ws2812.WS2812B.SetRed | firmware/src/ws2812/mod.rs:71-73 | red takes the value, green and blue become 0, and one LED is played in that colour |
| Ws2812.WS2812B.SetGreen | firmware/src/ws2812/mod.rs:75-77 | green takes the value, red and blue become 0, and one LED is played in that colour |
| Ws2812.WS2812B.SetBlue | firmware/src/ws2812/mod.rs:79-81 | blue takes the value, red and green become 0, and one LED is played in that colour |
| Ws2812.OneLedShowsColour | firmware/src/ws2812/mod.rs:63-69 | the 25-code frame of one LED decodes to the colour set and ends with the marker |
| Ws2812.LightColor.WithRed | firmware/src/ws2812/mod.rs:178-181 | only red changes |
| Ws2812.LightColor.WithGreen | firmware/src/ws2812/mod.rs:182-185 | only green changes |
| Ws2812.LightColor.WithBlue | firmware/src/ws2812/mod.rs:186-189 | only blue changes |
| Ws2812.Off | firmware/src/ws2812/mod.rs:156-158 | off is (0, 0, 0) |
| Ws2812.Red | firmware/src/ws2812/mod.rs:160-162 | red is (32, 0, 0) |
| Ws2812.Green | firmware/src/ws2812/mod.rs:164-166 | green is (0, 32, 0) |
| Ws2812.Blue | firmware/src/ws2812/mod.rs:168-170 | blue is (0, 0, 32) |
| Ws2812.Amber | firmware/src/ws2812/mod.rs:172-176 | amber is (32, 16, 0) |
| Ws2812.PresetsDistinct | firmware/src/ws2812/mod.rs:144-190 | the five presets are five different packets on the wire |
| Ws2812.Led.constructor | doorctrl/src/ws2812/mod.rs:140-142 | the LED wraps the given driver |
| Ws2812.Led.SetColorRgb | doorctrl/src/ws2812/mod.rs:145-147 | the same outcome and state as `set_colors` with the same arguments |
| Ws2812.Led.Flicker | doorctrl/src/ws2812/mod.rs:149-154 | a dark frame, then the colour it started with; it succeeds exactly when both transmissions do; the colour is restored unless the first transmission fails, which leaves (0, 0, 0) |
| Boot.NybbleToHex | firmware/src/bin/main.rs:82-90 | a nybble becomes a lower-case hex digit: '0'-'9' for 0-9, 'a'-'f' for 10-15; the same code is at doorctrl/src/bin/main.rs:72-80 |
| Boot.HexValue | firmware/src/bin/main.rs:82-90 | a lower-case hex digit stands for a value below 16 |
| Boot.HexValueOf | firmware/src/bin/main.rs:82-90 | the digit made for a nybble reads back as that nybble |
| Boot.U8ToHex | firmware/src/bin/main.rs:81-96 | a byte becomes two lower-case hex digits; the same code is at doorctrl/src/bin/main.rs:71-86 |
| Boot.U8ToHexValue | firmware/src/bin/main.rs:92-95 | the two digits are the high and the low nybble: they read back as the byte |
| Boot.MacHex | firmware/src/bin/main.rs:98-106 | the device id is twelve lower-case hex digits, two per MAC byte, in order |
| Boot.ParseMacHex | firmware/src/bin/main.rs:98-106 | reading the device id back as hex gives the MAC address |
| Boot.MacHexInjective | firmware/src/bin/main.rs:225 | distinct MAC addresses give distinct device ids |
| Boot.MacToHex | firmware/src/bin/main.rs:98-106 | the array filled is the device id of the MAC address; the same code is at doorctrl/src/bin/main.rs:88-96 |
| Boot.FirmwareBoot | firmware/src/bin/main.rs:191-204 | normal mode with the loaded configuration exactly when it loads; setup mode with the load's error otherwise |
| Boot.FirmwareBootsSaved | firmware/src/bin/main.rs:191-204 | flash erased and programmed with a saved configuration boots normal mode with that configuration |
| Boot.FirmwareBootsErased | firmware/src/bin/main.rs:191-204 | erased, never programmed flash boots setup mode with `NoConfig` |
| Boot.DoorctrlBoot | doorctrl/src/bin/main.rs:190-265 | a failed load proceeds unconfigured: access point, 192.168.0.1/24, no MQTT, default configuration for the web tasks; a loaded one joins its Wi-Fi over DHCP and starts MQTT with its broker credentials |
| Boot.PlanConsistent | doorctrl/src/bin/main.rs:203-253 | station, DHCP, Wi-Fi client and MQTT come together and only with a configuration; the access point always has the static address and the default configuration; MQTT uses the broker of the configuration the web tasks get |
| Boot.DoorctrlBootsSaved | doorctrl/src/bin/main.rs:190-253 | a configuration saved to erased flash brings doorctrl up as a station with MQTT, using that configuration |

## Left out

- Network, radio, timers and GPIO are inputs. A connection is a script of read results and a write budget; a `select` is the order in which its branches win; the broker's answers are reason codes; the RMT channel is a number of transmissions that succeed.
- Partial writes are not modelled. A write call delivers all of its bytes or, once the budget is spent, nothing.
- Concurrency is not modelled: the mutex around the flash, the tasks that run side by side, and a receive abandoned halfway when `select` picks the other branch.
- SHA-1 and Base64 of the WebSocket handshake: the accept value is a function parameter.
- serde JSON: the configuration's JSON text and the discovery document are parameters, and parsing a configuration update is a parameter too. Serialising a `ConfigV1` (the serialize test of conf/src/lib.rs:362-373) is not modelled.
- The pages built in with `include_bytes!` are parameters.
- `weblite` is not part of this model. The responder and WebSocket of doorctrl/src/http (`HttpResponse.Responder`, `WebSocket.Websocket`) stand in for weblite's, so the page and frame bytes stated for the firmware are those of that stand-in. Its `HandlerError` is modelled from its use in firmware/src/web/mod.rs. `handle_websocket` there only logs and forwards.
- The one-second wait and `software_reset` after a saved configuration are modelled as the session ending in `Reset`. The subscriber is not released on that path.
- The command channel's capacity of two, and a sender blocking when it is full, are not modelled; sending always succeeds.
- `Light::run`, `do_pattern` and `wait` (firmware/src/ws2812/mod.rs:205-280) are left out because they are timing: they only sequence `set_colors` calls between timers.
- The wait inside `flicker` is left out for the same reason.
- The firmware's `normal_mode`, `setup_mode`, `wifi_ap`, `wifi_client`, `mqtt_service`, `factory_resetter` and `blink` tasks, and `prepare_flash`, are left out because they start hardware and tasks.
- doorctrl's `wifi_ap`, `wifi_client`, `net_task`, `http_server` spawning and `blink` are left out for the same reason. From `main` only the boot decision and the device id are modelled.
- `make_buffers` of doorctrl/src/hass/mod.rs only allocates, so it is not modelled.
- The accept loop of doorctrl/src/web/mod.rs:56-60 is not modelled. `Serve` models one accepted connection.
- `NorFlash` and `Storage` model the `embedded_storage` traits the configuration code is written against; a real flash's alignment rules are not modelled.
- HttpServer.Server.Serve: the handler is a function of the request and the remaining write budget; a handler that reads from the connection is not modelled.
- HttpServer.Server.Answer: a custom `handle_websocket` is not modelled; the default one is.
- Boot.NybbleToHex: requires a nybble below 169, where the `u8` addition would overflow; `u8_to_hex` only passes values below 16.
- Io.Client.WriteAll: an empty write uses up a budget slot and can fail, whereas `write_all` of an empty slice returns at once.
- WebSocket.Encode: requires that a mask fits the destination, where the source panics on the out-of-bounds index (doorctrl/src/http/websocket.rs:269-273).
- WebSocket.ApplyMask: requires that the payload length fits the buffer, where the source panics on the out-of-bounds index (doorctrl/src/http/websocket.rs:281-287).
- HttpCrateHeader.Write: requires a Content-Length below 2^64, the range of the source's `usize`.
- Branches of `splitn` that cannot happen are not modelled: its first item always exists.
- The `ascii` module the doorctrl HTTP stack imports is not part of this model. The crate's `atoi` and `AsciiInt` from http/src/lib.rs:234-297 stand in for it.
- config.rs `complete` does not check `mqtt_user`. The model follows the code.

## Findings

| source | as written | input that shows it | evidently intended | confidence | as-written member | corrected member |
|---|---|---|---|---|---|---|
| doorctrl/src/http/server.rs:50 | every read re-parses the whole buffer, including the zeros and earlier requests' bytes | "GET /index.html HTTP/1.1", "Content-Length: 3", a blank line and "ab", in one read into a zeroed buffer of 50 bytes or more | parse only the bytes received for this request, `http_buff[..http_buff_offset]` | high, not executed | ServerExamples.WholeBufferFillsBody | HttpServer.ReadReceived |
| doorctrl/src/http/websocket.rs:160 | after a 16-bit length of 127, the 64-bit length branch is entered too | a masked binary frame with a 127-byte payload: header [0x82, 0xFE, 0x00, 0x7F] and a key | take the 64-bit branch only when the 7-bit length is 127 (`else if`) | high, not executed | WebSocket.DecodeMissesLength127 | WebSocket.DecodeFixedRoundTrip |
| http/src/request.rs:206-215 | both branches return the header, so any `Other` header answers a request for any key | headers "Accept: */*" then "Host: door", asked for `Other("Host", _)` | return an `Other` header only when its key matches, as the comment there says | high, not executed | HttpCrateRequest.GetHeaderIgnoresKey | HttpCrateRequest.LookupKeyed |
