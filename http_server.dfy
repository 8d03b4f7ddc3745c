/** The connection loop of the doorctrl HTTP server
    (doorctrl/src/http/server.rs): read into a buffer, re-parse it after every
    read, hand each complete request to the handler, and start over for the
    next request on the same connection. */
module HttpServer {
  import opened Common
  import opened Io
  import opened Http
  import opened HttpRequest

  /** What a request handler does with one request: the write calls it issues
      through its responder, and how it ends, with `Ok(true)` when it hands
      back a WebSocket and `Ok(false)` when it has answered. */
  datatype Reply = Reply(chunks: seq<seq<byte>>, outcome: Result<bool, HttpError>)

  /** `RequestHandler::handle_request`, given the request and the number of
      write calls the connection still accepts. */
  type Handler = (Request, nat) -> Reply

  /** What the loop hands the bytes to: `HttpRequest::try_from`, kept as a
      parameter so that the loop's properties hold for any parser. */
  type Parser = seq<byte> -> Result<Request, HttpError>

  const UNEXPECTED := "unexpected network error"
  const NO_WEBSOCKET := "websocket not implemented"

  /** The default `RequestHandler::handle_websocket`. */
  function HandleWebsocket(): (r: Result<(), HttpError>)
    ensures r.Err? && r.error.UnsupportedRequest?
  {
    Err(UnsupportedRequest(NO_WEBSOCKET))
  }

  /** How the reading of one request ends: the peer went away, an error, or a
      request. */
  datatype Arrival = Closed | Error(error: HttpError) | Parsed(req: Request)

  /** The bytes handed to `HttpRequest::try_from` after a read: the whole
      buffer, as the source does (`whole`), or only the bytes that arrived for
      this request, as the methods below do. */
  function Window(buff: seq<byte>, offset: nat, whole: bool): (r: seq<byte>)
    requires offset <= |buff|
    ensures r == if whole then buff else buff[..offset]
  {
    if whole then buff else buff[..offset]
  }

  /** What one read leaves the inner loop of `serve` with: an end, or the
      offset to read on from. */
  datatype Step = Done(arrival: Arrival) | More(offset: nat)

  /** `buff` with `b` read into it at `offset`. */
  function Fill(buff: seq<byte>, offset: nat, b: seq<byte>): (r: seq<byte>)
    requires offset + |b| <= |buff|
    ensures |r| == |buff| && r[..offset] == buff[..offset] && r[offset + |b|..] == buff[offset + |b|..]
    ensures r[offset..offset + |b|] == b
  {
    buff[..offset] + b + buff[offset + |b|..]
  }

  /** One pass of the inner loop of `serve`, once `got` has been read into
      `filled` at `offset`: a read of nothing or a reset connection is the
      end, any other read error a network error; otherwise the request is
      parsed, Incomplete reads on and any other parse error is returned. */
  function Next(got: ReadResult, filled: seq<byte>, offset: nat, whole: bool, parse: Parser): (r: Step)
    requires got.Data? ==> offset + |got.bytes| <= |filled|
    ensures r.More? ==> got.Data? && got.bytes != [] && r.offset == offset + |got.bytes|
    ensures got.Failed? ==> r == Done(if got.kind == ConnectionReset then Closed else Error(NetworkError(UNEXPECTED)))
    ensures got == Data([]) ==> r == Done(Closed)
    ensures r.Done? && r.arrival.Parsed? ==>
              got.Data? && parse(Window(filled, offset + |got.bytes|, whole)) == Ok(r.arrival.req)
    ensures got.Data? && got.bytes != [] ==>
              var p := parse(Window(filled, offset + |got.bytes|, whole));
              && (p.Ok? ==> r == Done(Parsed(p.value)))
              && (p == Err(Incomplete) ==> r == More(offset + |got.bytes|))
              && (p.Err? && p.error != Incomplete ==> r == Done(Error(p.error)))
  {
    match got
    case Failed(k) => Done(if k == ConnectionReset then Closed else Error(NetworkError(UNEXPECTED)))
    case Data(b) =>
      if b == [] then Done(Closed)
      else
        match parse(Window(filled, offset + |b|, whole))
        case Ok(req) => Done(Parsed(req))
        case Err(Incomplete) => More(offset + |b|)
        case Err(e) => Done(Error(e))
  }

  /** A buffer that holds `b` at `offset` and `buff` everywhere else is
      `buff` filled with `b`. */
  lemma Filled(a: seq<byte>, buff: seq<byte>, offset: nat, b: seq<byte>)
    requires |a| == |buff| && offset + |b| <= |buff|
    requires forall k :: 0 <= k < |b| ==> a[offset + k] == b[k]
    requires forall k :: 0 <= k < |a| && !(offset <= k < offset + |b|) ==> a[k] == buff[k]
    ensures a == Fill(buff, offset, b)
  {
    var f := Fill(buff, offset, b);
    forall k | 0 <= k < |a|
      ensures a[k] == f[k]
    {
      if k < offset {
        assert f[k] == f[..offset][k];
      } else if k < offset + |b| {
        assert f[k] == f[offset..offset + |b|][k - offset];
        assert a[offset + (k - offset)] == b[k - offset];
      } else {
        assert f[k] == f[offset + |b|..][k - offset - |b|];
      }
    }
  }

  /** `serve` once a request has arrived and been answered: the rest is
      `serve` on what is left, with fewer write calls left. */
  lemma ServeAnswered(input: seq<ReadResult>, buff: seq<byte>, budget: nat, handler: Handler, whole: bool, parse: Parser)
    requires ReadSpec(input, buff, 0, whole, parse).0.Parsed?
    requires handler(ReadSpec(input, buff, 0, whole, parse).0.req, budget).outcome == Ok(false)
    ensures var (arrival, rest, filled) := ReadSpec(input, buff, 0, whole, parse);
      var chunks := handler(arrival.req, budget).chunks;
      var next := ServeSpec(rest, filled, Left(budget, |chunks|), handler, whole, parse);
      ServeSpec(input, buff, budget, handler, whole, parse) == (next.0, chunks + next.1, next.2, next.3)
  {
  }

  /** The inner loop of `serve`: read into the buffer after `offset` and take
      the next step until it is an end. The result is the outcome, the script
      left and the buffer. */
  function ReadSpec(input: seq<ReadResult>, buff: seq<byte>, offset: nat, whole: bool, parse: Parser)
    : (r: (Arrival, seq<ReadResult>, seq<byte>))
    requires offset <= |buff|
    ensures |r.2| == |buff|
    decreases Remaining(input)
  {
    var room := |buff| - offset;
    TakeRemaining(input, room);
    var got, rest := Take(input, room).0, Take(input, room).1;
    var filled := if got.Data? then Fill(buff, offset, got.bytes) else buff;
    match Next(got, filled, offset, whole, parse)
    case Done(a) => (a, rest, filled)
    case More(o) => ReadSpec(rest, filled, o, whole, parse)
  }

  /** The inner loop never reads back what it has consumed, and a request
      consumes at least one byte. */
  lemma {:induction false} ReadRemaining(input: seq<ReadResult>, buff: seq<byte>, offset: nat, whole: bool, parse: Parser)
    requires offset <= |buff|
    ensures Remaining(ReadSpec(input, buff, offset, whole, parse).1) <= Remaining(input)
    ensures ReadSpec(input, buff, offset, whole, parse).0.Parsed? ==>
              Remaining(ReadSpec(input, buff, offset, whole, parse).1) < Remaining(input)
    decreases Remaining(input)
  {
    var room := |buff| - offset;
    TakeRemaining(input, room);
    var got, rest := Take(input, room).0, Take(input, room).1;
    var filled := if got.Data? then Fill(buff, offset, got.bytes) else buff;
    match Next(got, filled, offset, whole, parse)
    case Done(a) =>
      assert ReadSpec(input, buff, offset, whole, parse) == (a, rest, filled);
    case More(o) =>
      assert ReadSpec(input, buff, offset, whole, parse) == ReadSpec(rest, filled, o, whole, parse);
      ReadRemaining(rest, filled, o, whole, parse);
  }

  /** A buffer that agrees with `filled1` up to `o`, where `filled1` holds `b`
      from `offset`, holds `b` and then its own bytes from `offset`. */
  lemma Spliced(filled: seq<byte>, filled1: seq<byte>, offset: nat, o: nat, n: nat, b: seq<byte>)
    requires offset <= o <= n <= |filled| && o <= |filled1|
    requires filled[..o] == filled1[..o] && filled1[offset..o] == b
    ensures filled[..offset] == filled1[..offset]
    ensures filled[offset..n] == b + filled[o..n]
  {
    assert filled[..offset] == filled[..o][..offset];
    assert filled1[..offset] == filled1[..o][..offset];
    assert filled[offset..o] == filled[..o][offset..];
    assert filled1[offset..o] == filled1[..o][offset..];
    assert filled[offset..n] == filled[offset..o] + filled[o..n];
  }

  lemma Glued(x: seq<byte>, b: seq<byte>, y: seq<byte>, s: seq<byte>, s1: seq<byte>, s0: seq<byte>)
    requires x == b + y && y + s == s1 && s0 == b + s1
    ensures x + s == s0
  {
    assert x + s == b + (y + s);
  }

  /** With the parse window fixed, a request is parsed from exactly the bytes
      received for it: the buffer keeps what came before `offset`, holds the
      bytes the peer sent up to what is still unread, and the request is what
      `try_from` makes of those bytes. */
  lemma {:induction false} ReadReceived(input: seq<ReadResult>, buff: seq<byte>, offset: nat, parse: Parser,
                                        r: (Arrival, seq<ReadResult>, seq<byte>))
    requires offset <= |buff|
    requires r == ReadSpec(input, buff, offset, false, parse) && r.0.Parsed?
    ensures Received(input, buff, offset, r, parse)
    decreases Remaining(input)
  {
    var room := |buff| - offset;
    var got, rest1 := Take(input, room).0, Take(input, room).1;
    ReadFirst(input, buff, offset, false, parse, got, rest1);
    var b := got.bytes;
    var filled1, o := Fill(buff, offset, b), offset + |b|;
    if Next(got, filled1, offset, false, parse).Done? {
      ReceivedAtOnce(input, buff, offset, parse, r, got, rest1);
    } else {
      ReadFirstMore(input, buff, offset, false, parse, got, rest1);
      ReadReceived(rest1, filled1, o, parse, r);
      ReceivedMore(input, buff, offset, b, rest1, r, parse);
    }
  }

  /** The first read of a `ReadSpec` that ends in a request delivered
      bytes. */
  lemma ReadFirst(input: seq<ReadResult>, buff: seq<byte>, offset: nat, whole: bool, parse: Parser,
                  got: ReadResult, rest1: seq<ReadResult>)
    requires offset <= |buff|
    requires ReadSpec(input, buff, offset, whole, parse).0.Parsed?
    requires (got, rest1) == Take(input, |buff| - offset)
    ensures got.Data? && got.bytes != [] && offset + |got.bytes| <= |buff|
    ensures Stream(input) == got.bytes + Stream(rest1)
    ensures Remaining(rest1) < Remaining(input)
  {
    var room := |buff| - offset;
    TakeRemaining(input, room);
    TakeStream(input, room);
  }

  /** ... and either the request was parsed from them, */
  lemma ReadFirstDone(input: seq<ReadResult>, buff: seq<byte>, offset: nat, whole: bool, parse: Parser,
                      got: ReadResult, rest1: seq<ReadResult>)
    requires offset <= |buff|
    requires (got, rest1) == Take(input, |buff| - offset)
    requires got.Data? && offset + |got.bytes| <= |buff|
    requires Next(got, Fill(buff, offset, got.bytes), offset, whole, parse).Done?
    ensures var step := Next(got, Fill(buff, offset, got.bytes), offset, whole, parse);
      ReadSpec(input, buff, offset, whole, parse) == (step.arrival, rest1, Fill(buff, offset, got.bytes))
  {
  }

  /** ... or the reading goes on after them. */
  lemma ReadFirstMore(input: seq<ReadResult>, buff: seq<byte>, offset: nat, whole: bool, parse: Parser,
                      got: ReadResult, rest1: seq<ReadResult>)
    requires offset <= |buff|
    requires (got, rest1) == Take(input, |buff| - offset)
    requires got.Data? && offset + |got.bytes| <= |buff|
    requires Next(got, Fill(buff, offset, got.bytes), offset, whole, parse).More?
    ensures ReadSpec(input, buff, offset, whole, parse) == ReadSpec(rest1, Fill(buff, offset, got.bytes), offset + |got.bytes|, whole, parse)
  {
    TakeRemaining(input, |buff| - offset);
  }

  /** What `ReadReceived` promises about the outcome `r` of reading from
      `offset` of `buff`: a request, parsed from the bytes before `offset`
      followed by what the peer sent up to the part `r` leaves unread. */
  ghost predicate Received(input: seq<ReadResult>, buff: seq<byte>, offset: nat, r: (Arrival, seq<ReadResult>, seq<byte>), parse: Parser)
    requires offset <= |buff|
  {
    && r.0.Parsed? && |Stream(r.1)| <= |Stream(input)|
    && var n := offset + |Stream(input)| - |Stream(r.1)|;
    && n <= |r.2| && r.2[..offset] == buff[..offset]
    && r.2[offset..n] + Stream(r.1) == Stream(input)
    && parse(r.2[..n]) == Ok(r.0.req)
  }

  /** `ReadReceived` when the first read completes the request. */
  lemma ReceivedAtOnce(input: seq<ReadResult>, buff: seq<byte>, offset: nat, parse: Parser,
                       r: (Arrival, seq<ReadResult>, seq<byte>), got: ReadResult, rest1: seq<ReadResult>)
    requires offset <= |buff|
    requires r == ReadSpec(input, buff, offset, false, parse) && r.0.Parsed?
    requires (got, rest1) == Take(input, |buff| - offset)
    requires got.Data? && got.bytes != [] && offset + |got.bytes| <= |buff|
    requires Stream(input) == got.bytes + Stream(rest1)
    requires Next(got, Fill(buff, offset, got.bytes), offset, false, parse).Done?
    ensures Received(input, buff, offset, r, parse)
  {
    ReadFirstDone(input, buff, offset, false, parse, got, rest1);
    ReceivedFirst(input, buff, offset, got.bytes, rest1, r, parse);
  }

  /** `Received` when the request is parsed after the first read. */
  lemma ReceivedFirst(input: seq<ReadResult>, buff: seq<byte>, offset: nat, b: seq<byte>, rest1: seq<ReadResult>,
                      r: (Arrival, seq<ReadResult>, seq<byte>), parse: Parser)
    requires offset + |b| <= |buff| && Stream(input) == b + Stream(rest1)
    requires r.0.Parsed? && r.1 == rest1 && r.2 == Fill(buff, offset, b)
    requires parse(Window(r.2, offset + |b|, false)) == Ok(r.0.req)
    ensures Received(input, buff, offset, r, parse)
  {
  }

  /** `Received` carried back over one read that left the request
      incomplete. */
  lemma ReceivedMore(input: seq<ReadResult>, buff: seq<byte>, offset: nat, b: seq<byte>, rest1: seq<ReadResult>,
                     r: (Arrival, seq<ReadResult>, seq<byte>), parse: Parser)
    requires offset + |b| <= |buff| && Stream(input) == b + Stream(rest1)
    requires Received(rest1, Fill(buff, offset, b), offset + |b|, r, parse)
    ensures Received(input, buff, offset, r, parse)
  {
    var o, filled1 := offset + |b|, Fill(buff, offset, b);
    var n := o + |Stream(rest1)| - |Stream(r.1)|;
    assert n == offset + |Stream(input)| - |Stream(r.1)|;
    Spliced(r.2, filled1, offset, o, n, b);
    var x, y := r.2[offset..n], r.2[o..n];
    assert x == b + y;
    assert y + Stream(r.1) == Stream(rest1);
    Glued(x, b, y, Stream(r.1), Stream(rest1), Stream(input));
  }

  /** `serve`: requests one after another until the connection ends, an error
      occurs or a handler hands back a WebSocket. The result is how it ends,
      the write calls issued, the script left and the buffer. */
  function ServeSpec(input: seq<ReadResult>, buff: seq<byte>, budget: nat, handler: Handler, whole: bool, parse: Parser)
    : (r: (Result<(), HttpError>, seq<seq<byte>>, seq<ReadResult>, seq<byte>))
    decreases Remaining(input)
  {
    ReadRemaining(input, buff, 0, whole, parse);
    var (arrival, rest, filled) := ReadSpec(input, buff, 0, whole, parse);
    match arrival
    case Closed => (Ok(()), [], rest, filled)
    case Error(e) => (Err(e), [], rest, filled)
    case Parsed(req) =>
      var reply := handler(req, budget);
      match reply.outcome
      case Err(e) => (Err(e), reply.chunks, rest, filled)
      case Ok(true) => (HandleWebsocket(), reply.chunks, rest, filled)
      case Ok(false) =>
        var next := ServeSpec(rest, filled, Left(budget, |reply.chunks|), handler, whole, parse);
        (next.0, reply.chunks + next.1, next.2, next.3)
  }

  /** The requests `serve` hands to the handler, in order. */
  ghost function Handled(input: seq<ReadResult>, buff: seq<byte>, budget: nat, handler: Handler, whole: bool, parse: Parser)
    : seq<Request>
    decreases Remaining(input)
  {
    ReadRemaining(input, buff, 0, whole, parse);
    var (arrival, rest, filled) := ReadSpec(input, buff, 0, whole, parse);
    if !arrival.Parsed? then []
    else
      var reply := handler(arrival.req, budget);
      if reply.outcome == Ok(false) then
        [arrival.req] + Handled(rest, filled, Left(budget, |reply.chunks|), handler, whole, parse)
      else [arrival.req]
  }

  /** `pieces` are consecutive pieces at the front of `s`, and `parse`
      makes the requests `reqs` of them, one each. */
  ghost predicate PiecesOf(pieces: seq<seq<byte>>, reqs: seq<Request>, s: seq<byte>, parse: Parser) {
    && |pieces| == |reqs|
    && (forall i :: 0 <= i < |pieces| ==> parse(pieces[i]) == Ok(reqs[i]))
    && Concat(pieces) <= s
  }

  lemma PiecesNone(s: seq<byte>, parse: Parser)
    ensures PiecesOf([], [], s, parse)
  {
  }

  lemma PiecesCons(piece: seq<byte>, q: Request, pieces: seq<seq<byte>>, reqs: seq<Request>, s: seq<byte>, parse: Parser)
    requires parse(piece) == Ok(q) && PiecesOf(pieces, reqs, s, parse)
    ensures PiecesOf([piece] + pieces, [q] + reqs, piece + s, parse)
  {
    ConcatAppend([piece], pieces);
    var one: seq<seq<byte>> := [piece];
    assert one[..0] == [];
    assert Concat([piece] + pieces) == piece + Concat(pieces);
    assert s == Concat(pieces) + s[|Concat(pieces)|..];
    assert piece + s == piece + Concat(pieces) + s[|Concat(pieces)|..];
    forall i | 0 <= i < 1 + |pieces|
      ensures parse(([piece] + pieces)[i]) == Ok(([q] + reqs)[i])
    {
      if i > 0 {
        assert ([piece] + pieces)[i] == pieces[i - 1];
      }
    }
  }

  /** The first request of `serve`, and the requests after it. */
  lemma HandledFirst(input: seq<ReadResult>, buff: seq<byte>, budget: nat, handler: Handler, whole: bool, parse: Parser)
    ensures var r := ReadSpec(input, buff, 0, whole, parse);
      var reqs := Handled(input, buff, budget, handler, whole, parse);
      && (!r.0.Parsed? ==> reqs == [])
      && (r.0.Parsed? && handler(r.0.req, budget).outcome != Ok(false) ==> reqs == [r.0.req])
      && (r.0.Parsed? && handler(r.0.req, budget).outcome == Ok(false) ==>
            reqs == [r.0.req] + Handled(r.1, r.2, Left(budget, |handler(r.0.req, budget).chunks|), handler, whole, parse))
  {
  }

  /** With the parse window fixed, the requests handed to the handler are
      parsed from consecutive pieces of what the peer sent, one piece each,
      in the order they were sent: no byte is parsed twice and none comes
      from an earlier request or from the buffer's initial contents. */
  lemma {:induction false} ServeReceived(input: seq<ReadResult>, buff: seq<byte>, budget: nat, handler: Handler, parse: Parser)
    ensures exists pieces :: PiecesOf(pieces, Handled(input, buff, budget, handler, false, parse), Stream(input), parse)
    decreases Remaining(input)
  {
    ReadRemaining(input, buff, 0, false, parse);
    HandledFirst(input, buff, budget, handler, false, parse);
    var r := ReadSpec(input, buff, 0, false, parse);
    if !r.0.Parsed? {
      PiecesNone(Stream(input), parse);
      return;
    }
    ReadReceived(input, buff, 0, parse, r);
    var n := |Stream(input)| - |Stream(r.1)|;
    var piece := r.2[..n];
    assert Stream(input) == piece + Stream(r.1) by {
      assert r.2[0..n] == piece;
    }
    var reply := handler(r.0.req, budget);
    if reply.outcome == Ok(false) {
      var later := Handled(r.1, r.2, Left(budget, |reply.chunks|), handler, false, parse);
      ServeReceived(r.1, r.2, Left(budget, |reply.chunks|), handler, parse);
      var rest :| PiecesOf(rest, later, Stream(r.1), parse);
      PiecesCons(piece, r.0.req, rest, later, Stream(r.1), parse);
    } else {
      PiecesNone(Stream(r.1), parse);
      PiecesCons(piece, r.0.req, [], [], Stream(r.1), parse);
      assert [r.0.req] + [] == [r.0.req];
      assert [piece] + [] == [piece];
    }
  }

  /** A script in which no read fails with anything but a reset. */
  predicate Quiet(input: seq<ReadResult>) {
    forall i :: 0 <= i < |input| ==> input[i] != Failed(OtherError)
  }

  lemma TakeQuiet(input: seq<ReadResult>, room: nat)
    requires Quiet(input)
    ensures Take(input, room).0 != Failed(OtherError) && Quiet(Take(input, room).1)
  {
    if input != [] {
      var rest := Take(input, room).1;
      if input[0].Data? && |input[0].bytes| > room {
        assert rest == [Data(input[0].bytes[room..])] + input[1..];
        forall i | 0 <= i < |rest| ensures rest[i] != Failed(OtherError) {
          if i > 0 { assert rest[i] == input[i]; }
        }
      } else {
        assert rest == input[1..];
        forall i | 0 <= i < |rest| ensures rest[i] != Failed(OtherError) {
          assert rest[i] == input[i + 1];
        }
      }
    }
  }

  /** A read that leaves fewer than 15 bytes since the offset reset reads
      on. */
  lemma ShortStep(got: ReadResult, filled: seq<byte>, offset: nat)
    requires got.Data? && got.bytes != [] && offset + |got.bytes| <= |filled| && offset + |got.bytes| < 15
    ensures Next(got, filled, offset, false, TryFromSpec) == More(offset + |got.bytes|)
  {
    assert TryFromSpec(Window(filled, offset + |got.bytes|, false)) == Err(Incomplete);
  }

  /** Fewer than 15 bytes received since the offset was reset never make a
      request: every read of them is Incomplete, until the stream ends. */
  lemma {:induction false} ReadShort(input: seq<ReadResult>, buff: seq<byte>, offset: nat)
    requires offset <= |buff| && offset + |Stream(input)| < 15 && Quiet(input)
    ensures ReadSpec(input, buff, offset, false, TryFromSpec).0 == Closed
    decreases Remaining(input)
  {
    var room := |buff| - offset;
    TakeRemaining(input, room);
    TakeQuiet(input, room);
    var got, rest := Take(input, room).0, Take(input, room).1;
    if got.Data? && got.bytes != [] {
      var b := got.bytes;
      TakeStream(input, room);
      var filled := Fill(buff, offset, b);
      ShortStep(got, filled, offset);
      ReadFirstMore(input, buff, offset, false, TryFromSpec, got, rest);
      ReadShort(rest, filled, offset + |b|);
    }
  }

  /** A peer that sends fewer than 15 bytes and then closes or resets the
      connection gets nothing, and `serve` returns Ok. */
  lemma ServeShort(input: seq<ReadResult>, buff: seq<byte>, budget: nat, handler: Handler)
    requires |Stream(input)| < 15 && Quiet(input)
    ensures ServeSpec(input, buff, budget, handler, false, TryFromSpec).0 == Ok(())
    ensures ServeSpec(input, buff, budget, handler, false, TryFromSpec).1 == []
  {
    ReadShort(input, buff, 0);
  }

  /** A first read whose bytes the parser rejects with anything but
      Incomplete ends `serve` with that error, before the handler is called. */
  lemma ServeParseError(input: seq<ReadResult>, buff: seq<byte>, budget: nat, handler: Handler, parse: Parser, e: HttpError)
    requires input != [] && input[0].Data? && 0 < |input[0].bytes| <= |buff|
    requires parse(input[0].bytes) == Err(e) && e != Incomplete
    ensures ServeSpec(input, buff, budget, handler, false, parse)
            == (Err(e), [], input[1..], Fill(buff, 0, input[0].bytes))
  {
    var d := input[0].bytes;
    assert Take(input, |buff|) == (Data(d), input[1..]);
    assert Window(Fill(buff, 0, d), |d|, false) == d;
    ReadFirstDone(input, buff, 0, false, parse, Data(d), input[1..]);
  }

  /** A run of `serve` preceded by the write calls `chunks`. */
  function Join(chunks: seq<seq<byte>>, s: (Result<(), HttpError>, seq<seq<byte>>, seq<ReadResult>, seq<byte>))
    : (r: (Result<(), HttpError>, seq<seq<byte>>, seq<ReadResult>, seq<byte>))
    ensures r.0 == s.0 && r.2 == s.2 && r.3 == s.3
    ensures r.1 == chunks + s.1
  {
    (s.0, chunks + s.1, s.2, s.3)
  }

  lemma JoinNothing(s: (Result<(), HttpError>, seq<seq<byte>>, seq<ReadResult>, seq<byte>))
    ensures Join([], s) == s
  {
    assert [] + s.1 == s.1;
  }

  lemma JoinJoin(a: seq<seq<byte>>, b: seq<seq<byte>>, s: (Result<(), HttpError>, seq<seq<byte>>, seq<ReadResult>, seq<byte>))
    ensures Join(a, Join(b, s)) == Join(a + b, s)
  {
    assert a + (b + s.1) == a + b + s.1;
  }

  /** The write calls of a reply, issued in order. */
  method IssueAll(client: Client, chunks: seq<seq<byte>>)
    modifies client
    ensures (client.out, client.budget) == After(old(client.out), old(client.budget), chunks)
    ensures client.input == old(client.input)
  {
    ghost var out0, b0 := client.out, client.budget;
    AfterNothing(out0, b0);
    assert chunks[..0] == [];
    for i := 0 to |chunks|
      invariant (client.out, client.budget) == After(out0, b0, chunks[..i])
      invariant client.input == old(client.input)
    {
      var _ := client.WriteAll(chunks[i]);
      AfterThen(out0, b0, chunks[..i], [chunks[i]]);
      assert chunks[..i] + [chunks[i]] == chunks[..i + 1];
    }
    assert chunks[..|chunks|] == chunks;
  }

  /** The body of the inner loop of `serve` after a read, as the source
      branches: on the read result, then on the parse of the bytes received
      so far. */
  method Classify(got: ReadResult, buff: seq<byte>, offset: nat) returns (step: Step)
    requires got.Data? ==> offset + |got.bytes| <= |buff|
    ensures step == Next(got, buff, offset, false, TryFromSpec)
  {
    if got.Failed? {
      return Done(if got.kind == ConnectionReset then Closed else Error(NetworkError(UNEXPECTED)));
    }
    if got.bytes == [] {
      return Done(Closed);
    }
    var parsed := TryFrom(buff[..offset + |got.bytes|]);
    if parsed.Ok? {
      return Done(Parsed(parsed.value));
    } else if parsed.error == Incomplete {
      return More(offset + |got.bytes|);
    }
    return Done(Error(parsed.error));
  }

  /** `HTTPServer`. */
  class Server {
    const handler: Handler

    /** `HTTPServer::new`. */
    constructor (handler: Handler)
      ensures this.handler == handler
    {
      this.handler := handler;
    }

    /** One pass of the inner loop of `serve`: a read into `buff` after
        `offset`, then the step it leads to. */
    method ReadOnce(client: Client, buff: array<byte>, offset: nat) returns (step: Step)
      requires offset <= buff.Length
      modifies client, buff
      ensures step.More? ==> step.offset <= buff.Length && Remaining(client.input) < Remaining(old(client.input))
      ensures ReadSpec(old(client.input), old(buff[..]), offset, false, TryFromSpec)
        == if step.Done? then (step.arrival, client.input, buff[..])
           else ReadSpec(client.input, buff[..], step.offset, false, TryFromSpec)
      ensures client.out == old(client.out) && client.budget == old(client.budget)
    {
      ghost var in0, buff0 := client.input, buff[..];
      TakeRemaining(in0, buff.Length - offset);
      var res := client.ReadInto(buff, offset, buff.Length - offset);
      if res.Data? {
        Filled(buff[..], buff0, offset, res.bytes);
      } else {
        assert buff[..] == buff0;
      }
      step := Classify(res, buff[..], offset);
    }

    /** The inner loop of `serve`: one request read into `buff`. */
    method ReadRequest(client: Client, buff: array<byte>) returns (a: Arrival)
      modifies client, buff
      ensures (a, client.input, buff[..]) == ReadSpec(old(client.input), old(buff[..]), 0, false, TryFromSpec)
      ensures client.out == old(client.out) && client.budget == old(client.budget)
    {
      var offset: nat := 0;
      while true
        invariant offset <= buff.Length
        invariant ReadSpec(client.input, buff[..], offset, false, TryFromSpec) == ReadSpec(old(client.input), old(buff[..]), 0, false, TryFromSpec)
        invariant client.out == old(client.out) && client.budget == old(client.budget)
        decreases Remaining(client.input)
      {
        var step := ReadOnce(client, buff, offset);
        if step.Done? {
          return step.arrival;
        }
        offset := step.offset;
      }
    }

    /** One pass of the outer loop of `serve`: read a request and let the
        handler answer it. `done` says that `serve` returns `r` here, after
        the write calls `chunks`; otherwise it goes on with what is left. */
    method Answer(client: Client, buff: array<byte>) returns (done: bool, r: Result<(), HttpError>, ghost chunks: seq<seq<byte>>)
      modifies client, buff
      ensures (client.out, client.budget) == After(old(client.out), old(client.budget), chunks)
      ensures var s := ServeSpec(old(client.input), old(buff[..]), old(client.budget), handler, false, TryFromSpec);
        var n := ServeSpec(client.input, buff[..], client.budget, handler, false, TryFromSpec);
        (done ==> s == (r, chunks, client.input, buff[..])) && (!done ==> s == Join(chunks, n))
      ensures !done ==> Remaining(client.input) < Remaining(old(client.input))
    {
      ghost var in1, buff1, b1 := client.input, buff[..], client.budget;
      var arrival := ReadRequest(client, buff);
      ReadRemaining(in1, buff1, 0, false, TryFromSpec);
      if arrival.Closed? || arrival.Error? {
        AfterNothing(client.out, client.budget);
        return true, if arrival.Closed? then Ok(()) else Err(arrival.error), [];
      }
      var reply := handler(arrival.req, client.budget);
      IssueAll(client, reply.chunks);
      chunks := reply.chunks;
      if reply.outcome.Err? {
        return true, Err(reply.outcome.error), chunks;
      } else if reply.outcome.value {
        r := HandleWebsocket();
        return true, r, chunks;
      }
      ServeAnswered(in1, buff1, b1, handler, false, TryFromSpec);
      return false, Ok(()), chunks;
    }

    /** `serve`: read a request, let the handler answer it, and start over
        with the offset at 0; the buffer keeps what earlier requests left in
        it. */
    method Serve(client: Client, buff: array<byte>) returns (r: Result<(), HttpError>)
      modifies client, buff
      ensures var s := ServeSpec(old(client.input), old(buff[..]), old(client.budget), handler, false, TryFromSpec);
        && r == s.0
        && (client.out, client.budget) == After(old(client.out), old(client.budget), s.1)
        && client.input == s.2 && buff[..] == s.3
    {
      ghost var spec := ServeSpec(client.input, buff[..], client.budget, handler, false, TryFromSpec);
      ghost var out0, b0 := client.out, client.budget;
      ghost var issued: seq<seq<byte>> := [];
      AfterNothing(out0, b0);
      JoinNothing(spec);
      while true
        invariant (client.out, client.budget) == After(out0, b0, issued)
        invariant spec == Join(issued, ServeSpec(client.input, buff[..], client.budget, handler, false, TryFromSpec))
        decreases Remaining(client.input)
      {
        var done, res, chunks := Answer(client, buff);
        AfterThen(out0, b0, issued, chunks);
        if done {
          return res;
        }
        JoinJoin(issued, chunks, ServeSpec(client.input, buff[..], client.budget, handler, false, TryFromSpec));
        issued := issued + chunks;
      }
    }
  }
}
