/** The web service of the doorctrl binary (doorctrl/src/web/mod.rs): one
    TCP connection at a time, requests read into a 1024-byte buffer and parsed
    by the standalone `http` crate, a page or a 404 for every GET, and on
    "/ws" a raw byte protocol that carries lock commands in and state updates
    out. */
module DoorctrlWeb {
  import opened Common
  import opened Io
  import opened State
  import opened Channels
  import opened StateBytes
  import opened HttpCrate
  import HttpCrateHeader
  import HttpCrateResponse

  const ERR_ACCEPT_ABORTED := "waiting for connection aborted"

  /** The size of `http_buf`. */
  const HTTP_BUF: nat := 1024

  const ROOT: seq<byte> := Str("/")
  const WS_PATH: seq<byte> := Str("/ws")
  const WEBSOCKET: seq<byte> := Str("websocket")

  const NO_UPGRADE := "received /ws request without upgrade"
  const UNKNOWN_UPGRADE := "unknown upgrade"
  const READ_FAILED := "websocket finished with error"
  const UNKNOWN_TYPE := "received unknown payload type"
  const WRITE_FAILED := "error writing to websocket"

  // ---------------------------------------------------------------------------
  // What the service works with

  /** Everything the service reads or changes: the connection's unread
      input, what it has written and how many more writes succeed, the
      commands sent and the pending `select` outcomes. */
  datatype Wire = Wire(
    input: seq<ReadResult>,
    out: seq<byte>,
    budget: nat,
    commands: seq<LockState>,
    arrivals: seq<Option<AnyState>>)

  function WireOf(sock: Client, cmds: CommandSender, sub: StateSubscriber): Wire
    reads sock, cmds, sub
  {
    Wire(sock.input, sock.out, sock.budget, cmds.sent, sub.arrivals)
  }

  /** The writes `chunks`, in turn, each one succeeding while the budget lasts. */
  function Written(w: Wire, chunks: seq<seq<byte>>): Wire {
    w.(out := w.out + Sent(chunks, w.budget), budget := Left(w.budget, |chunks|))
  }

  // ---------------------------------------------------------------------------
  // run_ws

  /** `run_ws`: each wait either writes a state message that won the
      `select` or reads one byte from the client. Type 1 reads one more byte
      and sends the command it names, type 2 is ignored, any other type ends
      the session with an error; the end of the stream ends it with `Ok`, a
      failed read or write with an error. */
  function WsSpec(w: Wire): (r: (Result<(), string>, Wire))
    decreases Remaining(w.input), |w.arrivals|
  {
    if w.arrivals != [] && w.arrivals[0].Some? then
      var w1 := Written(w.(arrivals := w.arrivals[1..]), [StateMessage(w.arrivals[0].value)]);
      if w.budget == 0 then (Err(WRITE_FAILED), w1)
      else WsSpec(w1)
    else
      TakeRemaining(w.input, 1);
      var w1 := w.(arrivals := Later(w.arrivals), input := Take(w.input, 1).1);
      match Take(w.input, 1).0
      case Failed(_) => (Err(READ_FAILED), w1)
      case Data(b) =>
        if b == [] then (Ok(()), w1)
        else if b[0] == WS_STATE_UPDATE then
          TakeRemaining(w1.input, 1);
          var w2 := w1.(input := Take(w1.input, 1).1);
          match Take(w1.input, 1).0
          case Failed(_) => (Err(READ_FAILED), w2)
          case Data(c) =>
            if c == [] then (Ok(()), w2)
            else WsSpec(w2.(commands := w.commands + Command(c[0])))
        else if b[0] == WS_CONFIG_UPDATE then WsSpec(w1)
        else (Err(UNKNOWN_TYPE), w1)
  }

  /** `run_ws` over the connection. A one-byte `read_exact` is one `read`
      of one byte: none back is the end of the stream. */
  method RunWs(sock: Client, buff: array<byte>, cmds: CommandSender, sub: StateSubscriber)
    returns (r: Result<(), string>)
    requires buff.Length >= 1
    modifies sock, buff, cmds, sub
    ensures (r, WireOf(sock, cmds, sub)) == WsSpec(old(WireOf(sock, cmds, sub)))
  {
    while true
      invariant WsSpec(WireOf(sock, cmds, sub)) == WsSpec(old(WireOf(sock, cmds, sub)))
      decreases Remaining(sock.input), |sub.arrivals|
    {
      ghost var w := WireOf(sock, cmds, sub);
      var next := sub.Next();
      if next.Some? {
        var ok := sock.WriteAll(StateMessage(next.value));
        assert WireOf(sock, cmds, sub) == Written(w.(arrivals := w.arrivals[1..]), [StateMessage(next.value)]);
        if !ok {
          return Err(WRITE_FAILED);
        }
        continue;
      }
      TakeRemaining(sock.input, 1);
      var got := sock.ReadInto(buff, 0, 1);
      ghost var w1 := w.(arrivals := Later(w.arrivals), input := Take(w.input, 1).1);
      assert WireOf(sock, cmds, sub) == w1;
      if got.Failed? {
        return Err(READ_FAILED);
      }
      if got.bytes == [] {
        return Ok(());
      }
      if buff[0] == WS_STATE_UPDATE {
        TakeRemaining(sock.input, 1);
        got := sock.ReadInto(buff, 0, 1);
        if got.Failed? {
          return Err(READ_FAILED);
        }
        if got.bytes == [] {
          return Ok(());
        }
        ghost var c := buff[0];
        if buff[0] == WS_LOCK_LOCK {
          cmds.Send(Locked);
        } else if buff[0] == WS_LOCK_UNLOCK {
          cmds.Send(Unlocked);
        }
        assert cmds.sent == w.commands + Command(c);
        assert WireOf(sock, cmds, sub) == w1.(input := Take(w1.input, 1).1, commands := w.commands + Command(c));
      } else if buff[0] != WS_CONFIG_UPDATE {
        return Err(UNKNOWN_TYPE);
      }
    }
  }

  /** The protocol read off the client's byte stream alone: the commands it
      asks for and, when it names an unknown type, the error. */
  function Protocol(s: seq<byte>): (r: (Option<string>, seq<LockState>))
    decreases |s|
  {
    if s == [] then (None, [])
    else if s[0] == WS_STATE_UPDATE then
      if |s| == 1 then (None, [])
      else
        var rest := Protocol(s[2..]);
        (rest.0, Command(s[1]) + rest.1)
    else if s[0] == WS_CONFIG_UPDATE then Protocol(s[1..])
    else (Some(UNKNOWN_TYPE), [])
  }

  /** The stream ends with the end of the connection, not with a failed read. */
  predicate EndsCleanly(input: seq<ReadResult>)
    decreases |input|
  {
    input == [] || (input[0].Data? && (input[0].bytes == [] || EndsCleanly(input[1..])))
  }

  /** Every `select` is won by the socket: no state message is waiting. */
  predicate NoUpdates(arrivals: seq<Option<AnyState>>)
    decreases |arrivals|
  {
    arrivals == [] || (arrivals[0].None? && NoUpdates(arrivals[1..]))
  }

  /** A read of at least one byte leaves a stream that ends the same way. */
  lemma TakeEnds(input: seq<ReadResult>, room: nat)
    requires room > 0
    ensures Stream(input) == [] ==> (Take(input, room).0 == Data([]) <==> EndsCleanly(input))
    ensures Stream(input) != [] ==> EndsCleanly(Take(input, room).1) == EndsCleanly(input)
  {
    if input != [] && input[0].Data? && |input[0].bytes| > room {
      var b := input[0].bytes;
      var rest := [Data(b[room..])] + input[1..];
      assert rest[0] == Data(b[room..]) && rest[1..] == input[1..];
    }
  }

  /** A read of one byte from a stream that has one delivers its first byte. */
  lemma TakeOne(input: seq<ReadResult>)
    requires Stream(input) != []
    ensures Take(input, 1).0 == Data([Stream(input)[0]])
    ensures Stream(Take(input, 1).1) == Stream(input)[1..]
  {
    TakeStream(input, 1);
  }

  /** How a session over `input` ends: with the protocol's error, or, when
      the stream runs out, `Ok` exactly when the connection ended cleanly. */
  function Outcome(input: seq<ReadResult>): Result<(), string> {
    match Protocol(Stream(input)).0
    case Some(e) => Err(e)
    case None => if EndsCleanly(input) then Ok(()) else Err(READ_FAILED)
  }

  /** With no state messages in between, what `run_ws` does depends only on
      the bytes the client sends, however they are split into reads: the
      commands are the protocol's, and the session ends with the protocol's
      error, or, when the stream runs out, with `Ok` exactly when the
      connection ended cleanly. */
  lemma {:induction false} WsFollowsStream(w: Wire)
    requires NoUpdates(w.arrivals)
    ensures WsSpec(w).1.commands == w.commands + Protocol(Stream(w.input)).1
    ensures WsSpec(w).1.out == w.out && WsSpec(w).1.budget == w.budget
    ensures WsSpec(w).0 == Outcome(w.input)
    decreases Remaining(w.input), 1
  {
    var s := Stream(w.input);
    TakeEnds(w.input, 1);
    TakeRemaining(w.input, 1);
    var w1 := w.(arrivals := Later(w.arrivals), input := Take(w.input, 1).1);
    assert NoUpdates(w1.arrivals);
    if s == [] {
      TakeStream(w.input, 1);
      return;
    }
    TakeOne(w.input);
    if s[0] == WS_STATE_UPDATE {
      WsFollowsCommand(w);
    } else if s[0] == WS_CONFIG_UPDATE {
      WsFollowsStream(w1);
    }
  }

  /** With no state message waiting, a state-update type byte makes
      `run_ws` read the second byte. */
  lemma WsStateStep(w: Wire)
    requires w.arrivals == [] || w.arrivals[0].None?
    requires Take(w.input, 1).0 == Data([WS_STATE_UPDATE])
    ensures WsSpec(w) == WsSecond(w.(arrivals := Later(w.arrivals), input := Take(w.input, 1).1), w.commands)
  {
  }

  /** The case of a state-update message: its second byte is read and
      carries out the command it names. */
  lemma {:induction false} WsFollowsCommand(w: Wire)
    requires NoUpdates(w.arrivals)
    ensures WsSpec(w).1.commands == w.commands + Protocol(Stream(w.input)).1
    ensures WsSpec(w).1.out == w.out && WsSpec(w).1.budget == w.budget
    ensures WsSpec(w).0 == Outcome(w.input)
    requires Stream(w.input) != [] && Stream(w.input)[0] == WS_STATE_UPDATE
    decreases Remaining(w.input), 0
  {
    var s := Stream(w.input);
    var w1 := w.(arrivals := Later(w.arrivals), input := Take(w.input, 1).1);
    assert Stream(w1.input) == s[1..] && EndsCleanly(w1.input) == EndsCleanly(w.input)
           && Remaining(w1.input) < Remaining(w.input) && NoUpdates(w1.arrivals) by {
      TakeEnds(w.input, 1);
      TakeRemaining(w.input, 1);
      TakeOne(w.input);
    }
    assert WsSpec(w) == WsSecond(w1, w.commands) by {
      TakeOne(w.input);
      WsStateStep(w);
    }
    if |s| == 1 {
      assert Protocol(s) == (None, []);
      assert w.commands + [] == w.commands;
      SecondEnds(w1, w.commands);
      return;
    }
    var w2 := w1.(input := Take(w1.input, 1).1, commands := w.commands + Command(s[1]));
    assert WsSecond(w1, w.commands) == WsSpec(w2)
           && Stream(w2.input) == s[2..] && EndsCleanly(w2.input) == EndsCleanly(w.input)
           && Remaining(w2.input) < Remaining(w.input) by {
      TakeOne(w1.input);
      TakeEnds(w1.input, 1);
      TakeRemaining(w1.input, 1);
    }
    var p := Protocol(s[2..]);
    var c := Command(s[1]);
    assert Protocol(s) == (p.0, c + p.1);
    assert Outcome(w2.input) == Outcome(w.input);
    WsFollowsStream(w2);
    Associative(w.commands, c, p.1);
  }

  /** The second byte of a state-update message: a failed read or the end
      of the stream ends the session, otherwise the command is carried out. */
  function WsSecond(w1: Wire, commands: seq<LockState>): (Result<(), string>, Wire)
    decreases Remaining(w1.input), |w1.arrivals| + 1
  {
    TakeRemaining(w1.input, 1);
    var t := Take(w1.input, 1);
    if t.0.Failed? then (Err(READ_FAILED), w1.(input := t.1))
    else if t.0.bytes == [] then (Ok(()), w1.(input := t.1))
    else WsSpec(w1.(input := t.1, commands := commands + Command(t.0.bytes[0])))
  }

  /** A state-update message cut short ends the session as its stream does. */
  lemma SecondEnds(w1: Wire, commands: seq<LockState>)
    requires Stream(w1.input) == []
    ensures WsSecond(w1, commands).1.commands == w1.commands
    ensures WsSecond(w1, commands).1.out == w1.out && WsSecond(w1, commands).1.budget == w1.budget
    ensures WsSecond(w1, commands).0 == if EndsCleanly(w1.input) then Ok(()) else Err(READ_FAILED)
  {
    TakeEnds(w1.input, 1);
    TakeStream(w1.input, 1);
  }

  /** A client that writes back a lock-state message commands that state;
      one that writes back a door-state message commands nothing. */
  lemma EchoedStates(s: AnyState, rest: seq<byte>)
    ensures s.Lock? ==> Protocol(StateMessage(s) + rest) == (Protocol(rest).0, [s.lock] + Protocol(rest).1)
    ensures s.Door? ==> Protocol(StateMessage(s) + rest) == Protocol(rest)
  {
    var m := StateMessage(s) + rest;
    assert m[0] == WS_STATE_UPDATE && |m| >= 2 && m[2..] == rest;
    if s.Door? {
      var p := Protocol(rest);
      assert Command(m[1]) == [];
      assert [] + p.1 == p.1;
      assert Protocol(m) == (p.0, p.1);
    }
  }

  /** A state message that wins the `select` is written first. */
  lemma WsWriteStep(w: Wire)
    requires w.arrivals != [] && w.arrivals[0].Some?
    ensures var w1 := Written(w.(arrivals := w.arrivals[1..]), [StateMessage(w.arrivals[0].value)]);
            WsSpec(w) == if w.budget == 0 then (Err(WRITE_FAILED), w1) else WsSpec(w1)
  {
  }

  /** The pending `select` outcomes are exactly the state updates `states`. */
  predicate Pending(w: Wire, states: seq<AnyState>) {
    |w.arrivals| == |states| && forall i :: 0 <= i < |states| ==> w.arrivals[i] == Some(states[i])
  }

  /** The messages `run_ws` writes are the state updates that won their
      `select`, in order; then the session goes on reading. */
  lemma {:induction false} WsWritesStates(w: Wire, states: seq<AnyState>)
    requires Pending(w, states) && w.budget >= |states|
    ensures WsSpec(w) == WsSpec(w.(arrivals := [], out := w.out + Concat(Messages(states)), budget := w.budget - |states|))
    decreases |states|
  {
    if states == [] {
      var none: seq<seq<byte>> := [];
      assert Messages(states) == none && Concat(none) == [];
      assert w.(arrivals := [], out := w.out + Concat(Messages(states)), budget := w.budget - 0) == w;
      return;
    }
    var m := StateMessage(states[0]);
    var more := Messages(states[1..]);
    var w1 := Written(w.(arrivals := w.arrivals[1..]), [m]);
    WsWriteStep(w);
    SentAll([m], w.budget);
    ConcatOne(m);
    assert w1 == w.(arrivals := w.arrivals[1..], out := w.out + m, budget := w.budget - 1);
    WsWritesStates(w1, states[1..]);
    ConcatAppend([m], more);
    assert [m] + more == Messages(states);
    assert w1.out + Concat(more) == w.out + Concat(Messages(states));
  }

  /** A state message that cannot be written ends the session before
      anything more is read; the messages before it are written. */
  lemma {:induction false} WsWriteFails(w: Wire, states: seq<AnyState>)
    requires Pending(w, states) && w.budget < |states|
    ensures WsSpec(w) == (Err(WRITE_FAILED), w.(arrivals := w.arrivals[w.budget + 1..], out := w.out + Sent(Messages(states), w.budget), budget := 0))
    decreases |states|
  {
    var m := StateMessage(states[0]);
    var more := Messages(states[1..]);
    var w1 := Written(w.(arrivals := w.arrivals[1..]), [m]);
    WsWriteStep(w);
    assert Messages(states) == [m] + more;
    SentFront(m, more, w.budget);
    if w.budget == 0 {
      SentIsPrefix(Messages(states), 0);
      SentIsPrefix([m], 0);
      assert w.out + [] == w.out;
      return;
    }
    SentAll([m], w.budget);
    ConcatOne(m);
    assert w1 == w.(arrivals := w.arrivals[1..], out := w.out + m, budget := w.budget - 1);
    WsWriteFails(w1, states[1..]);
    assert w1.arrivals[w1.budget + 1..] == w.arrivals[w.budget + 1..];
    assert w1.out + Sent(more, w1.budget) == w.out + Sent(Messages(states), w.budget);
  }

  lemma ConcatOne(m: seq<byte>)
    ensures Concat([m]) == m
  {
    var none: seq<seq<byte>> := [];
    assert [m][..0] == none;
  }

  function Messages(states: seq<AnyState>): (r: seq<seq<byte>>)
    ensures |r| == |states|
  {
    if states == [] then [] else [StateMessage(states[0])] + Messages(states[1..])
  }

  // ---------------------------------------------------------------------------
  // Reading a request

  datatype Arrival = Dropped | Parsed(req: Request)

  /** What the loop hands the received bytes to: `HttpRequest::try_from`,
      kept as a parameter so that the loop's properties hold for any parser. */
  type Parser = seq<byte> -> Result<Request, HttpError>

  /** The `'read` loop for one request: read into the free part of the
      buffer and parse everything received so far. A read of nothing (the
      end of the stream, or a full buffer) or a failed read closes the
      connection; so does a parse error; an incomplete request reads more.
      The result also gives every byte received for the request. */
  function ReadSpec(input: seq<ReadResult>, got: seq<byte>, parse: Parser): (r: (Arrival, seq<byte>, seq<ReadResult>))
    requires |got| <= HTTP_BUF
    ensures |r.1| <= HTTP_BUF
    ensures r.0.Parsed? ==> Remaining(r.2) < Remaining(input)
    decreases Remaining(input)
  {
    TakeRemaining(input, HTTP_BUF - |got|);
    var rest := Take(input, HTTP_BUF - |got|).1;
    match Take(input, HTTP_BUF - |got|).0
    case Failed(_) => (Dropped, got, rest)
    case Data(b) =>
      if b == [] then (Dropped, got, rest)
      else match parse(got + b)
        case Ok(req) => (Parsed(req), got + b, rest)
        case Err(NotReady) => ReadSpec(rest, got + b, parse)
        case Err(ProtocolErr(_)) => (Dropped, got + b, rest)
  }

  /** One read of the `'read` loop that delivers bytes `b`. */
  lemma ReadStep(input: seq<ReadResult>, got: seq<byte>, b: seq<byte>, rest: seq<ReadResult>, parse: Parser)
    requires |got| <= HTTP_BUF && b != []
    requires Take(input, HTTP_BUF - |got|) == (Data(b), rest)
    ensures |got + b| <= HTTP_BUF
    ensures parse(got + b) == Err(NotReady) ==> ReadSpec(input, got, parse) == ReadSpec(rest, got + b, parse)
    ensures parse(got + b).Ok? ==> ReadSpec(input, got, parse) == (Parsed(parse(got + b).value), got + b, rest)
    ensures parse(got + b).Err? && parse(got + b).error.ProtocolErr? ==>
              ReadSpec(input, got, parse).0 == Dropped && ReadSpec(input, got, parse).2 == rest
  {
  }

  /** What a request's bytes are when it is handed on: `try_from` of all of
      them gives the request, they extend what had arrived before, and the
      new ones are the front of the client's stream. */
  predicate Delivered(input: seq<ReadResult>, got: seq<byte>, r: (Arrival, seq<byte>, seq<ReadResult>), parse: Parser) {
    && r.0.Parsed?
    && parse(r.1) == Ok(r.0.req)
    && |got| < |r.1|
    && r.1[..|got|] == got
    && Stream(input) == r.1[|got|..] + Stream(r.2)
  }

  /** The request handed on is what `try_from` makes of exactly the bytes
      received for it, and they are the front of the client's stream. */
  lemma {:induction false} ReadDelivers(input: seq<ReadResult>, got: seq<byte>, parse: Parser)
    requires |got| <= HTTP_BUF
    ensures ReadSpec(input, got, parse).0.Parsed? ==> Delivered(input, got, ReadSpec(input, got, parse), parse)
    decreases Remaining(input)
  {
    var room := HTTP_BUF - |got|;
    TakeRemaining(input, room);
    var (first, rest) := Take(input, room);
    if first.Failed? || first.bytes == [] {
      return;
    }
    var b := first.bytes;
    ReadStep(input, got, b, rest, parse);
    TakeStream(input, room);
    var g := got + b;
    assert g[..|got|] == got && g[|got|..] == b;
    if parse(g) == Err(NotReady) {
      ReadDelivers(rest, g, parse);
      var r := ReadSpec(rest, g, parse);
      if r.0.Parsed? {
        ReadMore(input, got, b, rest, r, parse);
      }
    }
  }

  /** An incomplete request reads on: what is delivered later extends the
      bytes of this read too. */
  lemma ReadMore(input: seq<ReadResult>, got: seq<byte>, b: seq<byte>, rest: seq<ReadResult>,
                 r: (Arrival, seq<byte>, seq<ReadResult>), parse: Parser)
    requires Stream(input) == b + Stream(rest)
    requires Delivered(rest, got + b, r, parse)
    ensures Delivered(input, got, r, parse)
  {
    var bytes := r.1;
    Extended(got, b, bytes);
    Associative(b, bytes[|got + b|..], Stream(r.2));
  }

  lemma Extended(got: seq<byte>, b: seq<byte>, bytes: seq<byte>)
    requires |got + b| < |bytes| && bytes[..|got + b|] == got + b
    ensures bytes[..|got|] == got
    ensures bytes[|got|..] == b + bytes[|got + b|..]
  {
    assert bytes[..|got|] == (got + b)[..|got|];
  }

  /** A request that does not fit the buffer is never handed on: once the
      buffer is full the next read delivers nothing and closes the
      connection. */
  lemma FullBufferCloses(input: seq<ReadResult>, got: seq<byte>, parse: Parser)
    requires |got| == HTTP_BUF
    ensures ReadSpec(input, got, parse).0 == Dropped
  {
    assert Take(input, 0).0.Data? ==> Take(input, 0).0.bytes == [];
  }

  datatype Step = Done(arrival: Arrival) | More(offset: nat)

  /** One pass of `'read`: a read into `buf[offset..]`, then the bytes
      received so far are parsed. */
  method ReadOnce(sock: Client, buf: array<byte>, offset: nat) returns (step: Step)
    requires buf.Length == HTTP_BUF && offset <= HTTP_BUF
    modifies sock, buf
    ensures step.More? ==> offset < step.offset <= HTTP_BUF && Remaining(sock.input) < Remaining(old(sock.input))
    ensures ReadSpec(old(sock.input), old(buf[..offset]), TryFromSpec)
            == if step.Done? then (step.arrival, ReadSpec(old(sock.input), old(buf[..offset]), TryFromSpec).1, sock.input)
               else ReadSpec(sock.input, buf[..step.offset], TryFromSpec)
    ensures sock.out == old(sock.out) && sock.budget == old(sock.budget)
  {
    ghost var got := buf[..offset];
    ghost var before := sock.input;
    TakeRemaining(sock.input, HTTP_BUF - offset);
    var r := sock.ReadInto(buf, offset, HTTP_BUF - offset);
    if r.Failed? || r.bytes == [] {
      return Done(Dropped);
    }
    ReadStep(before, got, r.bytes, sock.input, TryFromSpec);
    assert buf[..offset + |r.bytes|] == got + r.bytes;
    var parsed := TryFrom(buf[..offset + |r.bytes|]);
    if parsed.Ok? {
      return Done(Parsed(parsed.value));
    } else if parsed.error.NotReady? {
      return More(offset + |r.bytes|);
    }
    return Done(Dropped);
  }

  /** `'read`: the buffer is zeroed and filled from the front. */
  method ReadRequest(sock: Client, buf: array<byte>) returns (a: Arrival)
    requires buf.Length == HTTP_BUF
    modifies sock, buf
    ensures a == ReadSpec(old(sock.input), [], TryFromSpec).0 && sock.input == ReadSpec(old(sock.input), [], TryFromSpec).2
    ensures sock.out == old(sock.out) && sock.budget == old(sock.budget)
  {
    forall k | 0 <= k < buf.Length {
      buf[k] := 0;
    }
    var offset: nat := 0;
    while true
      invariant offset <= HTTP_BUF && sock.out == old(sock.out) && sock.budget == old(sock.budget)
      invariant ReadSpec(sock.input, buf[..offset], TryFromSpec) == ReadSpec(old(sock.input), [], TryFromSpec)
      decreases Remaining(sock.input)
    {
      var step := ReadOnce(sock, buf, offset);
      if step.Done? {
        return step.arrival;
      }
      offset := step.offset;
    }
  }

  // ---------------------------------------------------------------------------
  // Handling a request

  /** How a request leaves the connection: waiting for the next request,
      closed, or with `run` itself returning an error. */
  datatype Flow = NextRequest | Close | Stop(error: string)

  /** `respond(code)` on the wire. */
  function Respond(w: Wire, code: nat): (r: (Result<(), string>, Wire))
    requires HttpCrateResponse.Canned(code).Some?
    ensures r.1.input == w.input && r.1.commands == w.commands && r.1.arrivals == w.arrivals
  {
    var (headers, body) := HttpCrateResponse.Canned(code).value;
    (if w.budget >= 4 then Ok(()) else Err(HttpCrateResponse.HTTP_WRITE_ERR),
     Written(w, HttpCrateResponse.RespondChunks(headers, body)))
  }

  /** The WebSocket handshake answer; `accept` is the Base64 text of the
      SHA-1 of the key and the RFC 6455 GUID, `None` when encoding fails. */
  type Accept = seq<byte> -> Option<HttpCrateHeader.AcceptKey>

  /** A "/ws" request that asks for a WebSocket and gives its key: the only
      kind that starts a session, reads beyond the request or makes `run`
      return an error. */
  predicate Upgrades(req: Request) {
    req.path == WS_PATH && Lookup(req, UpgradeKind) == Some(WEBSOCKET) && Lookup(req, KeyKind).Some?
  }

  /** A request for "/ws": without an Upgrade header, or with one other
      than "websocket", the connection is closed; without a key the next
      request is read; otherwise the handshake is answered and the WebSocket
      session runs, and its end closes the connection. */
  function UpgradeSpec(req: Request, w: Wire, accept: Accept): (r: (Flow, Wire))
    requires req.path == WS_PATH
    ensures r.0.NextRequest? ==> r.1 == w
    ensures r.0.Stop? || r.1.input != w.input || r.1.commands != w.commands ==> Upgrades(req)
  {
    match Lookup(req, UpgradeKind)
    case None => (Close, w)
    case Some(u) =>
      if u != WEBSOCKET then (Close, w)
      else match Lookup(req, KeyKind)
        case None => (NextRequest, w)
        case Some(key) =>
          match accept(key)
          case None => (Stop("error enoding key hash"), w)
          case Some(a) =>
            var w1 := Written(w, [HttpCrateResponse.RESPONSE_101, a, CRLF + CRLF]);
            if w.budget < 3 then (Stop(HttpCrateResponse.HTTP_WRITE_ERR), w1)
            else
              var (res, w2) := WsSpec(w1);
              (if res.Ok? then Close else Stop(res.error), w2)
  }

  /** A page is answered; the next request is read when the response was
      written. */
  function Page(w: Wire, code: nat): (r: (Flow, Wire))
    requires HttpCrateResponse.Canned(code).Some?
    ensures !r.0.Stop? && r.1.input == w.input && r.1.commands == w.commands
    ensures r.0.NextRequest? <==> w.budget >= 4
  {
    var (res, w1) := Respond(w, code);
    (if res.Ok? then NextRequest else Close, w1)
  }

  /** The routing by path, for a request without a body that is either a
      GET or has already been answered with a 400. */
  function RouteSpec(req: Request, w: Wire, accept: Accept): (r: (Flow, Wire))
    ensures r.0.NextRequest? ==> r.1.input == w.input && r.1.commands == w.commands
    ensures r.0.Stop? || r.1.input != w.input || r.1.commands != w.commands ==> Upgrades(req)
  {
    if req.path == ROOT then Page(w, 200)
    else if req.path == WS_PATH then UpgradeSpec(req, w, accept)
    else Page(w, 404)
  }

  /** One parsed request: a body is refused with a 400 and the connection
      closed; a method other than GET is answered with a 400 and, when that
      succeeds, still routed by its path. */
  function HandleSpec(req: Request, w: Wire, accept: Accept): (r: (Flow, Wire))
    ensures r.0.NextRequest? ==> r.1.input == w.input && r.1.commands == w.commands
    ensures r.0.Stop? || r.1.input != w.input || r.1.commands != w.commands ==> LengthOf(req) == 0 && Upgrades(req)
  {
    if LengthOf(req) > 0 then (Close, Respond(w, 400).1)
    else if req.httpMethod != GET then
      var (res, w1) := Respond(w, 400);
      if res.Err? then (Close, w1) else RouteSpec(req, w1, accept)
    else RouteSpec(req, w, accept)
  }

  method Route(req: Request, sock: Client, buff: array<byte>, cmds: CommandSender, sub: StateSubscriber, accept: Accept)
    returns (flow: Flow)
    requires buff.Length >= 1
    modifies sock, buff, cmds, sub
    ensures (flow, WireOf(sock, cmds, sub)) == RouteSpec(req, old(WireOf(sock, cmds, sub)), accept)
  {
    if req.path == ROOT {
      flow := AnswerPage(200, sock, cmds, sub);
      return;
    }
    if req.path != WS_PATH {
      flow := AnswerPage(404, sock, cmds, sub);
      return;
    }
    flow := Upgrade(req, sock, buff, cmds, sub, accept);
  }

  method AnswerPage(code: nat, sock: Client, cmds: CommandSender, sub: StateSubscriber) returns (flow: Flow)
    requires HttpCrateResponse.Canned(code).Some?
    modifies sock
    ensures (flow, WireOf(sock, cmds, sub)) == Page(old(WireOf(sock, cmds, sub)), code)
  {
    var res := HttpCrateResponse.Respond(code, sock);
    flow := if res.Ok? then NextRequest else Close;
  }

  method Upgrade(req: Request, sock: Client, buff: array<byte>, cmds: CommandSender, sub: StateSubscriber, accept: Accept)
    returns (flow: Flow)
    requires req.path == WS_PATH && buff.Length >= 1
    modifies sock, buff, cmds, sub
    ensures (flow, WireOf(sock, cmds, sub)) == UpgradeSpec(req, old(WireOf(sock, cmds, sub)), accept)
  {
    var upgrade := GetHeader(req, UPGRADE);
    if upgrade.None? || upgrade.value != WEBSOCKET {
      return Close;
    }
    var key := GetHeader(req, SEC_WEBSOCKET_KEY);
    if key.None? {
      return NextRequest;
    }
    var handshake := HttpCrateResponse.RespondWebsocket(accept(key.value), sock);
    if handshake.Err? {
      return Stop(handshake.error);
    }
    var session := RunWs(sock, buff, cmds, sub);
    return if session.Ok? then Close else Stop(session.error);
  }

  method Handle(req: Request, sock: Client, buff: array<byte>, cmds: CommandSender, sub: StateSubscriber, accept: Accept)
    returns (flow: Flow)
    requires buff.Length >= 1
    modifies sock, buff, cmds, sub
    ensures (flow, WireOf(sock, cmds, sub)) == HandleSpec(req, old(WireOf(sock, cmds, sub)), accept)
  {
    var length := ContentLen(req);
    if length > 0 {
      var _ := HttpCrateResponse.Respond(400, sock);
      return Close;
    }
    if req.httpMethod != GET {
      var res := HttpCrateResponse.Respond(400, sock);
      if res.Err? {
        return Close;
      }
    }
    flow := Route(req, sock, buff, cmds, sub, accept);
  }

  // ---------------------------------------------------------------------------
  // One connection

  /** The `'request` loop over one accepted connection: `None` when the
      connection is closed, `Some(e)` when `run` itself returns the error
      `e`. */
  function ServeSpec(w: Wire, accept: Accept): (r: (Option<string>, Wire))
    decreases Remaining(w.input)
  {
    var (a, _, rest) := ReadSpec(w.input, [], TryFromSpec);
    var w1 := w.(input := rest);
    match a
    case Dropped => (None, w1)
    case Parsed(req) =>
      var (flow, w2) := HandleSpec(req, w1, accept);
      match flow
      case NextRequest => ServeSpec(w2, accept)
      case Close => (None, w2)
      case Stop(e) => (Some(e), w2)
  }

  method Serve(sock: Client, buf: array<byte>, cmds: CommandSender, sub: StateSubscriber, accept: Accept)
    returns (r: Option<string>)
    requires buf.Length == HTTP_BUF
    modifies sock, buf, cmds, sub
    ensures (r, WireOf(sock, cmds, sub)) == ServeSpec(old(WireOf(sock, cmds, sub)), accept)
  {
    while true
      invariant ServeSpec(WireOf(sock, cmds, sub), accept) == ServeSpec(old(WireOf(sock, cmds, sub)), accept)
      decreases Remaining(sock.input)
    {
      var a := ReadRequest(sock, buf);
      if a.Dropped? {
        return None;
      }
      var flow := Handle(a.req, sock, buf, cmds, sub, accept);
      match flow {
        case NextRequest =>
        case Close =>
          return None;
        case Stop(e) =>
          return Some(e);
      }
    }
  }

  // ---------------------------------------------------------------------------
  // Properties of the request handling

  /** A request that is not a GET, has no body and asks for "/" is answered
      twice: the 400 page, then the index page. */
  lemma NonGetAnsweredTwice(req: Request, w: Wire, accept: Accept)
    requires LengthOf(req) == 0 && req.httpMethod != GET && req.path == ROOT && w.budget >= 8
    ensures HandleSpec(req, w, accept).0 == NextRequest
    ensures HandleSpec(req, w, accept).1.out
            == w.out + Concat(Chunks(400)) + Concat(Chunks(200))
  {
    SentAll(Chunks(400), w.budget);
    SentAll(Chunks(200), w.budget - 4);
  }

  function Chunks(code: nat): seq<seq<byte>>
    requires HttpCrateResponse.Canned(code).Some?
  {
    HttpCrateResponse.RespondChunks(HttpCrateResponse.Canned(code).value.0, HttpCrateResponse.Canned(code).value.1)
  }
}
