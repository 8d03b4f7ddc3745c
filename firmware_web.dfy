/** The web service of the firmware's setup mode (firmware/src/web/mod.rs):
    the setup page, its icon and a 404 page over HTTP, and on "/ws" a
    WebSocket session that reports the door and lock states, sends the
    stored configuration, passes lock commands on, and saves configuration
    updates, resetting the device once one is saved. */
module FirmwareWeb {
  import opened Common
  import opened Io
  import opened State
  import opened Channels
  import opened StateBytes
  import opened ConfigValue
  import Ascii
  import Http
  import HttpHeader
  import HttpRequest
  import HttpResponse
  import WebSocket
  import Config
  import Boot

  const WS_NOTIFICATION: byte := 3

  /** The opcode of a close frame. */
  const CLOSE: byte := 8

  /** The size of the buffer `send_config_via_ws` serialises into; the JSON
      text goes after the type byte. */
  const CONFIG_BUF: nat := 1024

  const ROOT: seq<byte> := Str("/")
  const FAVICON_PATH: seq<byte> := Str("/favicon.ico")
  const WS_PATH: seq<byte> := Str("/ws")

  const SERIALIZE_FAILED := "serializing config failed"
  const SUBSCRIBE_FAILED := "webseocket process upable to subscribe to state updates"
  const UNKNOWN_TYPE := "received unknown payload type"
  const SAVED: seq<byte> := Str("Config saved, rebooting...")

  /** The error a handler returns. The `weblite` crate that defines it is not
      part of this model; these are the variants the service builds, with
      the HTTP errors that `?` passes on. */
  datatype HandlerError =
    | HttpError(http: Http.HttpError)
    | WebsocketError(ws: WebSocket.WebsocketError)
    | CustomError(msg: string)

  // ---------------------------------------------------------------------------
  // handle_request

  /** The three files built into the binary: the setup page, the 404 page
      and the icon. */
  datatype Pages = Pages(index: seq<byte>, notFound: seq<byte>, favicon: seq<byte>)

  /** What a request is answered with: a status and a body, or the upgrade. */
  datatype Route = Answer(status: HttpResponse.StatusCode, body: seq<byte>) | ToWebsocket

  function RouteFor(path: seq<byte>, pages: Pages): Route {
    if path == ROOT then Answer(HttpResponse.OK, pages.index)
    else if path == FAVICON_PATH then Answer(HttpResponse.OK, pages.favicon)
    else if path == WS_PATH then ToWebsocket
    else Answer(HttpResponse.NotFound, pages.notFound)
  }

  /** The writes of an answer: the head, then the body. */
  function AnswerWrites(status: HttpResponse.StatusCode, body: seq<byte>, server: HttpHeader.ResponseHeader): seq<seq<byte>>
    requires status == HttpResponse.OK || status == HttpResponse.NotFound
  {
    HttpResponse.Head(HttpResponse.Reason(status).value, server) + HttpResponse.BodyChunks(body)
  }

  /** `handle_request`: "/" and "/favicon.ico" are answered 200 with their
      file, "/ws" is upgraded to a WebSocket, anything else is answered 404
      with the 404 page. A failed write or a refused upgrade is the error. */
  method HandleRequest(req: HttpRequest.Request, resp: HttpResponse.Responder, pages: Pages, accept: HttpResponse.AcceptFn)
    returns (r: Result<Option<WebSocket.Websocket>, HandlerError>)
    requires !resp.sending && resp.server.Resp?
    modifies resp, resp.client
    ensures resp.client.input == old(resp.client.input)
    ensures r.Err? ==> r.error.HttpError?
    ensures RouteFor(req.path, pages).Answer? ==>
              var a := RouteFor(req.path, pages);
              var writes := AnswerWrites(a.status, a.body, resp.server);
              && (resp.client.out, resp.client.budget) == After(old(resp.client.out), old(resp.client.budget), writes)
              && (r == Ok(None) <==> old(resp.client.budget) >= |writes|)
    ensures RouteFor(req.path, pages).ToWebsocket? ==>
              var plan := HttpResponse.UpgradePlan(req, resp.server, accept);
              && (resp.client.out, resp.client.budget) == After(old(resp.client.out), old(resp.client.budget), plan.0)
              && (r.Ok? <==> old(resp.client.budget) >= |plan.0| && plan.1.None?)
              && (r.Ok? ==> r.value.Some? && fresh(r.value.value) && r.value.value.conn == resp.client)
  {
    var route := RouteFor(req.path, pages);
    if route.ToWebsocket? {
      var ws := resp.Upgrade(req, accept);
      if ws.Err? {
        return Err(HttpError(ws.error));
      }
      return Ok(Some(ws.value));
    }
    ghost var out0, budget0 := resp.client.out, resp.client.budget;
    ghost var head := HttpResponse.Head(HttpResponse.Reason(route.status).value, resp.server);
    ghost var body := HttpResponse.BodyChunks(route.body);
    var s := resp.WithStatus(route.status);
    if s.Err? {
      AfterStop(out0, budget0, head, body);
      return Err(HttpError(s.error));
    }
    var b := resp.WithBody(route.body);
    AfterThen(out0, budget0, head, body);
    if b.Err? {
      return Err(HttpError(b.error));
    }
    return Ok(None);
  }

  /** A page as it goes on the wire when every write succeeds: the status
      line and the Server line, the Content-Length line, the blank line and
      the file. */
  lemma AnswerOnWire(status: HttpResponse.StatusCode, body: seq<byte>, server: HttpHeader.ResponseHeader)
    requires status == HttpResponse.OK || status == HttpResponse.NotFound
    requires server.Resp? && body != []
    ensures Concat(AnswerWrites(status, body, server))
            == Concat(HttpResponse.Head(HttpResponse.Reason(status).value, server))
               + (HttpHeader.CONTENT_LENGTH + Str(": ") + Ascii.Digits(|body|) + CRLF + CRLF + body)
  {
    var head := HttpResponse.Head(HttpResponse.Reason(status).value, server);
    ConcatAppend(head, HttpResponse.BodyChunks(body));
    HttpResponse.BodyText(body);
  }

  // ---------------------------------------------------------------------------
  // The frames the device sends

  /** The two writes a `send` of `data` makes: the frame header, then the data. */
  function Writes(data: seq<byte>): seq<seq<byte>> {
    [WebSocket.Header(WebSocket.SendFrame(|data|)), data]
  }

  /** A notification: type 3, then the text. */
  function Notification(text: seq<byte>): seq<byte> {
    [WS_NOTIFICATION] + text
  }

  /** The configuration frame: type 2, then the JSON text. */
  function ConfigFrame(json: seq<byte>): seq<byte> {
    [WS_CONFIG_UPDATE] + json
  }

  /** A short frame the device sends is, on the wire, 0x82 (a final binary
      frame), its length without a mask, and the data; in particular a state
      update is the four bytes 0x82, 2, 1 and the state's code. */
  lemma ShortFrameOnWire(data: seq<byte>)
    requires |data| < 126
    ensures Concat(Writes(data)) == [0x82, |data|] + data
  {
    var f := WebSocket.SendFrame(|data|);
    assert WebSocket.Header(f) == [0x82, |data|] by {
      assert WebSocket.LenBytes(|data|) == [] && WebSocket.Key(f) == [];
    }
    var one: seq<seq<byte>> := [WebSocket.Header(f)];
    assert Writes(data)[..1] == one;
    assert Concat(one) == Concat(one[..0]) + one[0];
  }

  /** The three kinds of frame the device sends are told apart by their
      first byte, and the rest of each is what it carries. */
  lemma FrameKinds(s: AnyState, json: seq<byte>, text: seq<byte>)
    ensures StateMessage(s)[0] == WS_STATE_UPDATE && ConfigFrame(json)[0] == WS_CONFIG_UPDATE
            && Notification(text)[0] == WS_NOTIFICATION
    ensures ConfigFrame(json)[1..] == json && Notification(text)[1..] == text
    ensures |ConfigFrame(json)| == |json| + 1
  {
  }

  // ---------------------------------------------------------------------------
  // The session, as values

  /** Everything a WebSocket session reads or changes: the connection's
      unread input, what has been written and how many more writes succeed,
      the pending `select` outcomes, the commands sent, the configuration
      being edited and the flash. */
  datatype Session = Session(
    input: seq<ReadResult>,
    out: seq<byte>,
    budget: nat,
    arrivals: seq<Option<AnyState>>,
    commands: seq<LockState>,
    config: Config.Record,
    flash: seq<byte>)

  /** How a session ends: the client closed it, an error, or a configuration
      was saved and the device resets. */
  datatype Ending = Finished | Aborted(error: HandlerError) | Reset

  /** What a session depends on besides its state: the receive buffer's
      size, whether the flash's erase and write calls fail, and the JSON text
      serde makes of a configuration and the update it parses from a text
      (`None` for invalid JSON). */
  datatype Env = Env(
    room: nat,
    eraseFails: bool,
    writeFails: bool,
    toJson: Config.Record -> seq<byte>,
    parse: seq<byte> -> Option<Config.ConfigUpdate>)

  /** A `send` of `data`: both writes succeed while the budget lasts. */
  function SendSpec(s: Session, data: seq<byte>): (Result<(), WebSocket.WebsocketError>, Session)
    requires |data| < WebSocket.USIZE
  {
    (if s.budget >= 2 then Ok(()) else Err(WebSocket.NetworkError),
     s.(out := s.out + Sent(Writes(data), s.budget), budget := Left(s.budget, 2)))
  }

  /** `send_config_via_ws`: JSON that does not fit the 1023 bytes after the
      type byte fails to serialise. */
  function SendConfigSpec(s: Session, env: Env): (Result<(), HandlerError>, Session) {
    var json := env.toJson(s.config);
    if |json| >= CONFIG_BUF then (Err(CustomError(SERIALIZE_FAILED)), s)
    else
      var sent := SendSpec(s, ConfigFrame(json));
      (if sent.0.Err? then Err(WebsocketError(sent.0.error)) else Ok(()), sent.1)
  }

  lemma MessageFits(e: ConfigError)
    ensures |Message(e)| < 64
  {
  }

  /** Saving the configuration and telling the client how it went: the
      saved notice ends the session in a reset, an error's text lets it go
      on. */
  function SaveAndNotify(s: Session, env: Env): (Option<Ending>, Session) {
    var saved := Config.Saved(s.config, s.flash, env.eraseFails, env.writeFails);
    var text := if saved.0.Ok? then SAVED else (MessageFits(saved.0.error); Str(Message(saved.0.error)));
    var sent := SendSpec(s.(flash := saved.1), Notification(text));
    if sent.0.Err? then (Some(Aborted(WebsocketError(sent.0.error))), sent.1)
    else if saved.0.Ok? then (Some(Reset), sent.1)
    else (None, sent.1)
  }

  /** What `run_ws` does with the payload of a client frame; `None` when the
      session goes on. Only a state update sends commands, and only a valid
      configuration update touches the configuration, the flash or the
      output. */
  function Dispatch(s: Session, data: seq<byte>, env: Env): (r: (Option<Ending>, Session))
    ensures r.1.input == s.input && r.1.arrivals == s.arrivals
    ensures r.1.commands != s.commands ==> |data| >= 2 && data[0] == WS_STATE_UPDATE && r.1.commands == s.commands + Command(data[1])
    ensures r.1.config != s.config || r.1.flash != s.flash || r.1.out != s.out ==>
              |data| >= 2 && data[0] == WS_CONFIG_UPDATE && env.parse(data[1..]).Some?
    ensures r.0 == None ==> |data| >= 2 && (data[0] == WS_STATE_UPDATE || data[0] == WS_CONFIG_UPDATE)
  {
    if |data| < 2 then (Some(Aborted(WebsocketError(WebSocket.InsufficientData(2)))), s)
    else if data[0] == WS_STATE_UPDATE then (None, s.(commands := s.commands + Command(data[1])))
    else if data[0] == WS_CONFIG_UPDATE then
      match env.parse(data[1..])
      case None => (None, s)
      case Some(u) => SaveAndNotify(s.(config := Config.Updated(s.config, u)), env)
    else (Some(Aborted(CustomError(UNKNOWN_TYPE))), s)
  }

  /** The loop of `run_ws`: a state message that wins the `select` is sent
      on; otherwise the next frame is received. A close frame ends the
      session with `Ok`, a receive error with that error; any other frame's
      payload is dispatched. */
  function RunLoop(s: Session, env: Env): (Ending, Session)
    decreases Remaining(s.input), |s.arrivals|
  {
    if s.arrivals != [] && s.arrivals[0].Some? then
      var sent := SendSpec(s.(arrivals := s.arrivals[1..]), StateMessage(s.arrivals[0].value));
      if sent.0.Err? then (Aborted(WebsocketError(sent.0.error)), sent.1)
      else RunLoop(sent.1, env)
    else
      var got := WebSocket.ReceiveSpec(s.input, env.room, false);
      var s1 := s.(input := got.1, arrivals := Later(s.arrivals));
      if got.0.Err? then (Aborted(WebsocketError(got.0.error)), s1)
      else if got.0.value.frame.opcode == CLOSE then (Finished, s1)
      else
        var d := Dispatch(s1, got.0.value.payload, env);
        if d.0.Some? then (d.0.value, d.1)
        else
          WebSocket.ReceiveShrinks(s.input, env.room, false);
          RunLoop(d.1, env)
  }

  /** A stored state, if any, as the `send_state_via_ws` it asks for. */
  function SendStored(s: Session, state: Option<AnyState>): (Result<(), WebSocket.WebsocketError>, Session) {
    if state.Some? then SendSpec(s, StateMessage(state.value)) else (Ok(()), s)
  }

  /** The start of `run_ws`: the stored door state, then the stored lock
      state, then the configuration are sent. */
  function Greeting(s: Session, env: Env, door: Option<DoorState>, lock: Option<LockState>): (Result<(), HandlerError>, Session) {
    var d := SendStored(s, if door.Some? then Some(Door(door.value)) else None);
    if d.0.Err? then (Err(WebsocketError(d.0.error)), d.1)
    else
      var l := SendStored(d.1, if lock.Some? then Some(Lock(lock.value)) else None);
      if l.0.Err? then (Err(WebsocketError(l.0.error)), l.1)
      else SendConfigSpec(l.1, env)
  }

  /** `run_ws`: the greeting, then a subscriber to the state updates is
      taken (the channel has room for six), and the loop runs. */
  function RunWsSpec(s: Session, env: Env, door: Option<DoorState>, lock: Option<LockState>, subscribers: nat): (Ending, Session) {
    var g := Greeting(s, env, door, lock);
    if g.0.Err? then (Aborted(g.0.error), g.1)
    else if subscribers >= MAX_SUBSCRIBERS then (Aborted(CustomError(SUBSCRIBE_FAILED)), g.1)
    else RunLoop(g.1, env)
  }

  // ---------------------------------------------------------------------------
  // What a session guarantees

  predicate EndsWith(a: seq<byte>, b: seq<byte>) {
    |a| >= |b| && a[|a| - |b|..] == b
  }

  /** A `send` that succeeds puts the whole frame on the wire. */
  lemma SentFrame(s: Session, data: seq<byte>)
    requires |data| < WebSocket.USIZE && s.budget >= 2
    ensures SendSpec(s, data).0.Ok?
    ensures SendSpec(s, data).1.out == s.out + Concat(Writes(data))
  {
    SentAll(Writes(data), s.budget);
  }

  /** A dispatch keeps the magic of the configuration, and ends the session
      in a reset only when the updated configuration is complete, is in the
      flash so that the firmware boots it in normal mode, and the client was
      sent the saved notice. */
  lemma DispatchReset(s: Session, data: seq<byte>, env: Env)
    requires s.config.Marked()
    ensures Dispatch(s, data, env).1.config.Marked()
    ensures var (end, t) := Dispatch(s, data, env);
            end == Some(Reset) ==>
              && t.config.Complete()
              && Boot.FirmwareMode(false, t.flash) == Boot.NormalMode(t.config)
              && EndsWith(t.out, Concat(Writes(Notification(SAVED))))
  {
    if |data| >= 2 && data[0] == WS_CONFIG_UPDATE && env.parse(data[1..]).Some? {
      var c := Config.Updated(s.config, env.parse(data[1..]).value);
      var saved := Config.Saved(c, s.flash, env.eraseFails, env.writeFails);
      if saved.0.Ok? {
        Boot.FirmwareBootsSaved(c, s.flash);
        var n := Notification(SAVED);
        var u := s.(config := c, flash := saved.1);
        if u.budget >= 2 {
          SentFrame(u, n);
          var out := SendSpec(u, n).1.out;
          assert out[|out| - |Concat(Writes(n))|..] == Concat(Writes(n));
        }
      }
    }
  }

  /** The device resets only after a configuration was saved and the client
      told so: the configuration is complete, the flash holds it so that the
      firmware boots it in normal mode, and the last frame sent is the saved
      notice. */
  lemma {:induction false} ResetBootsSaved(s: Session, env: Env)
    requires s.config.Marked()
    ensures var (end, t) := RunLoop(s, env);
            end == Reset ==>
              && t.config.Complete()
              && Boot.FirmwareMode(false, t.flash) == Boot.NormalMode(t.config)
              && EndsWith(t.out, Concat(Writes(Notification(SAVED))))
    decreases Remaining(s.input), |s.arrivals|
  {
    if s.arrivals != [] && s.arrivals[0].Some? {
      var sent := SendSpec(s.(arrivals := s.arrivals[1..]), StateMessage(s.arrivals[0].value));
      if sent.0.Ok? {
        ResetBootsSaved(sent.1, env);
      }
    } else {
      var got := WebSocket.ReceiveSpec(s.input, env.room, false);
      var s1 := s.(input := got.1, arrivals := Later(s.arrivals));
      if got.0.Ok? && got.0.value.frame.opcode != CLOSE {
        DispatchReset(s1, got.0.value.payload, env);
        var d := Dispatch(s1, got.0.value.payload, env);
        if d.0.None? {
          WebSocket.ReceiveShrinks(s.input, env.room, false);
          ResetBootsSaved(d.1, env);
        }
      }
    }
  }

  /** A frame as a browser sends it: final, masked with `key`. */
  function ClientFrame(opcode: byte, payload: seq<byte>, key: seq<byte>): seq<byte>
    requires 0 < opcode < 16 && |payload| < WebSocket.USIZE && |key| == 4
  {
    WebSocket.Header(WebSocket.Frame(opcode, |payload|, true, true, Some(key))) + WebSocket.Masked(payload, key)
  }

  /** A browser that asks for the lock states `ls` in turn, each as the
      state's own two bytes in a binary frame, then closes. */
  function Asks(ls: seq<LockState>, key: seq<byte>): seq<byte>
    requires |key| == 4
  {
    if ls == [] then ClientFrame(CLOSE, [], key)
    else ClientFrame(2, StateMessage(Lock(ls[0])), key) + Asks(ls[1..], key)
  }

  /** A turn of the loop in which the client's frame wins and is
      dispatched without ending the session. */
  lemma LoopGoesOn(s: Session, env: Env, r: WebSocket.Received, rest: seq<ReadResult>, t: Session)
    requires s.arrivals == [] && WebSocket.ReceiveSpec(s.input, env.room, false) == (Ok(r), rest)
    requires r.frame.opcode != CLOSE && Dispatch(s.(input := rest), r.payload, env) == (None, t)
    ensures RunLoop(s, env) == RunLoop(t, env)
  {
  }

  /** One lock command from the browser. */
  lemma AskStep(s: Session, env: Env, l: LockState, key: seq<byte>, tail: seq<byte>)
    requires |key| == 4 && env.room >= 2 && s.arrivals == []
    requires Stream(s.input) == ClientFrame(2, StateMessage(Lock(l)), key) + tail
    ensures var rest := WebSocket.ReceiveSpec(s.input, env.room, false).1;
            && Stream(rest) == tail
            && RunLoop(s, env) == RunLoop(s.(input := rest, commands := s.commands + [l]), env)
  {
    var p := StateMessage(Lock(l));
    var f := WebSocket.Frame(2, 2, true, true, Some(key));
    WebSocket.ReceiveStream(s.input, env.room, f, p, tail, false);
    var rest := WebSocket.ReceiveSpec(s.input, env.room, false).1;
    CommandOfMessage(Lock(l));
    LoopGoesOn(s, env, WebSocket.Received(f, p), rest, s.(input := rest, commands := s.commands + [l]));
  }

  /** Lock commands from the browser reach the command channel in the
      order they were asked for, nothing is written back, and the close
      frame ends the session with `Ok`. */
  lemma {:induction false} CommandsFollowClient(s: Session, env: Env, ls: seq<LockState>, key: seq<byte>, more: seq<byte>)
    requires |key| == 4 && env.room >= 2 && s.arrivals == []
    requires Stream(s.input) == Asks(ls, key) + more
    ensures var (end, t) := RunLoop(s, env);
            end == Finished && t == s.(input := t.input, commands := s.commands + ls)
    decreases |ls|
  {
    if ls == [] {
      CloseStep(s, env, key, more);
    } else {
      var first := ClientFrame(2, StateMessage(Lock(ls[0])), key);
      var rest := Asks(ls[1..], key);
      Associative(first, rest, more);
      AskStep(s, env, ls[0], key, rest + more);
      var s2 := s.(input := WebSocket.ReceiveSpec(s.input, env.room, false).1, commands := s.commands + [ls[0]]);
      CommandsFollowClient(s2, env, ls[1..], key, more);
      Associative(s.commands, [ls[0]], ls[1..]);
      assert [ls[0]] + ls[1..] == ls;
    }
  }

  /** The close frame ends the session with `Ok` and changes nothing but the
      input. */
  lemma CloseStep(s: Session, env: Env, key: seq<byte>, more: seq<byte>)
    requires |key| == 4 && s.arrivals == []
    requires Stream(s.input) == ClientFrame(CLOSE, [], key) + more
    ensures RunLoop(s, env) == (Finished, s.(input := WebSocket.ReceiveSpec(s.input, env.room, false).1))
  {
    var f := WebSocket.Frame(CLOSE, 0, true, true, Some(key));
    WebSocket.ReceiveStream(s.input, env.room, f, [], more, false);
  }

  /** With both states stored and writes to spare, the client first gets
      the door state, then the lock state, then the configuration, each in
      a frame of its own. */
  lemma GreetingOnWire(s: Session, env: Env, door: DoorState, lock: LockState)
    requires s.budget >= 6 && |env.toJson(s.config)| < CONFIG_BUF
    ensures Greeting(s, env, Some(door), Some(lock)).0 == Ok(())
    ensures Greeting(s, env, Some(door), Some(lock)).1.out
            == s.out + Concat(Writes(StateMessage(Door(door)))) + Concat(Writes(StateMessage(Lock(lock))))
               + Concat(Writes(ConfigFrame(env.toJson(s.config))))
  {
    var d := SendSpec(s, StateMessage(Door(door)));
    SentFrame(s, StateMessage(Door(door)));
    var l := SendSpec(d.1, StateMessage(Lock(lock)));
    SentFrame(d.1, StateMessage(Lock(lock)));
    SentFrame(l.1, ConfigFrame(env.toJson(s.config)));
  }

  // ---------------------------------------------------------------------------
  // The handler

  /** `HttpServiceState`: the flash, the configuration being edited and the
      last door and lock states; nothing in this service sets the states. */
  class ServiceState {
    const storage: NorFlash
    const config: Config.ConfigV1
    var doorState: Option<DoorState>
    var lockState: Option<LockState>

    constructor (storage: NorFlash, config: Config.ConfigV1, doorState: Option<DoorState>, lockState: Option<LockState>)
      ensures this.storage == storage && this.config == config
      ensures this.doorState == doorState && this.lockState == lockState
    {
      this.storage := storage;
      this.config := config;
      this.doorState := doorState;
      this.lockState := lockState;
    }
  }

  /** `HttpClientHandler`: the shared state, the command channel and the
      state-update channel. */
  class HttpClientHandler {
    const inner: ServiceState
    const commands: CommandSender
    const updates: StateChannel

    constructor (inner: ServiceState, commands: CommandSender, updates: StateChannel)
      ensures this.inner == inner && this.commands == commands && this.updates == updates
    {
      this.inner := inner;
      this.commands := commands;
      this.updates := updates;
    }

    /** The session as the objects hold it. */
    function Now(socket: WebSocket.Websocket, sub: StateSubscriber): Session
      reads socket.conn, sub, commands, inner.config, inner.storage
    {
      Session(socket.conn.input, socket.conn.out, socket.conn.budget, sub.arrivals, commands.sent,
              inner.config.Value(), inner.storage.data)
    }

    function EnvOf(room: nat, toJson: Config.Record -> seq<byte>, parse: seq<byte> -> Option<Config.ConfigUpdate>): Env {
      Env(room, inner.storage.eraseFails, inner.storage.writeFails, toJson, parse)
    }

    /** `send_state_via_ws`: the state's two bytes in one frame. */
    method SendState(socket: WebSocket.Websocket, state: AnyState) returns (r: Result<(), WebSocket.WebsocketError>)
      modifies socket.conn
      ensures socket.conn.out == old(socket.conn.out) + Sent(Writes(StateMessage(state)), old(socket.conn.budget))
      ensures socket.conn.budget == Left(old(socket.conn.budget), 2) && socket.conn.input == old(socket.conn.input)
      ensures r.Ok? <==> old(socket.conn.budget) >= 2
      ensures r.Err? ==> r.error == WebSocket.NetworkError
    {
      r := socket.Send(StateMessage(state));
    }

    /** `send_notification_via_ws`: type 3 and the text in one frame. */
    method SendNotification(socket: WebSocket.Websocket, text: seq<byte>) returns (r: Result<(), WebSocket.WebsocketError>)
      requires |text| + 1 < WebSocket.USIZE
      modifies socket.conn
      ensures socket.conn.out == old(socket.conn.out) + Sent(Writes(Notification(text)), old(socket.conn.budget))
      ensures socket.conn.budget == Left(old(socket.conn.budget), 2) && socket.conn.input == old(socket.conn.input)
      ensures r.Ok? <==> old(socket.conn.budget) >= 2
      ensures r.Err? ==> r.error == WebSocket.NetworkError
    {
      r := socket.Send(Notification(text));
    }

    /** `send_config_via_ws`: the configuration's JSON after type 2, `n + 1`
        bytes in one frame; JSON longer than 1023 bytes does not serialise
        and nothing is sent. */
    method SendConfig(socket: WebSocket.Websocket, toJson: Config.Record -> seq<byte>) returns (r: Result<(), HandlerError>)
      modifies socket.conn
      ensures var json := toJson(inner.config.Value());
              && (|json| >= CONFIG_BUF ==> r == Err(CustomError(SERIALIZE_FAILED)) && socket.conn.out == old(socket.conn.out)
                                            && socket.conn.budget == old(socket.conn.budget))
              && (|json| < CONFIG_BUF ==>
                    && socket.conn.out == old(socket.conn.out) + Sent(Writes(ConfigFrame(json)), old(socket.conn.budget))
                    && socket.conn.budget == Left(old(socket.conn.budget), 2)
                    && r == (if old(socket.conn.budget) >= 2 then Ok(()) else Err(WebsocketError(WebSocket.NetworkError))))
      ensures socket.conn.input == old(socket.conn.input)
    {
      var serialized := new byte[CONFIG_BUF](_ => 0);
      serialized[0] := WS_CONFIG_UPDATE;
      var json := toJson(inner.config.Value());
      if |json| >= CONFIG_BUF {
        return Err(CustomError(SERIALIZE_FAILED));
      }
      var n := |json|;
      forall i | 0 <= i < n {
        serialized[i + 1] := json[i];
      }
      n := n + 1;
      assert serialized[..n] == ConfigFrame(json);
      var sent := socket.Send(serialized[..n]);
      if sent.Err? {
        return Err(WebsocketError(sent.error));
      }
      return Ok(());
    }

    /** What `run_ws` does with the payload of a client frame, as `Dispatch`
        says. */
    method OnPayload(socket: WebSocket.Websocket, sub: StateSubscriber, data: seq<byte>, env: Env)
      returns (end: Option<Ending>)
      requires env.eraseFails == inner.storage.eraseFails && env.writeFails == inner.storage.writeFails
      modifies socket.conn, commands, inner.config, inner.storage
      ensures (end, Now(socket, sub)) == Dispatch(old(Now(socket, sub)), data, env)
    {
      if |data| < 2 {
        return Some(Aborted(WebsocketError(WebSocket.InsufficientData(2))));
      }
      if data[0] == WS_STATE_UPDATE {
        if data[1] == WS_LOCK_LOCK {
          commands.Send(Locked);
        } else if data[1] == WS_LOCK_UNLOCK {
          commands.Send(Unlocked);
        }
        assert commands.sent == old(commands.sent) + Command(data[1]);
        return None;
      }
      if data[0] != WS_CONFIG_UPDATE {
        return Some(Aborted(CustomError(UNKNOWN_TYPE)));
      }
      var update := env.parse(data[1..]);
      if update.None? {
        return None;
      }
      inner.config.Update(update.value);
      end := SaveAndSend(socket, sub, env);
    }

    /** `save`, then the notification of how it went. */
    method SaveAndSend(socket: WebSocket.Websocket, sub: StateSubscriber, env: Env) returns (end: Option<Ending>)
      requires env.eraseFails == inner.storage.eraseFails && env.writeFails == inner.storage.writeFails
      modifies socket.conn, inner.storage
      ensures (end, Now(socket, sub)) == SaveAndNotify(old(Now(socket, sub)), env)
    {
      var saved := inner.config.Save(inner.storage);
      if saved.Ok? {
        var sent := SendNotification(socket, SAVED);
        if sent.Err? {
          return Some(Aborted(WebsocketError(sent.error)));
        }
        // the one-second wait and `software_reset`
        return Some(Reset);
      }
      MessageFits(saved.error);
      var sent := SendNotification(socket, Str(Message(saved.error)));
      if sent.Err? {
        return Some(Aborted(WebsocketError(sent.error)));
      }
      return None;
    }

    /** The loop of `run_ws`, as `RunLoop` says. */
    method Loop(socket: WebSocket.Websocket, buffer: array<byte>, sub: StateSubscriber, env: Env) returns (end: Ending)
      requires env.room == buffer.Length
      requires env.eraseFails == inner.storage.eraseFails && env.writeFails == inner.storage.writeFails
      modifies socket.conn, buffer, sub, commands, inner.config, inner.storage
      ensures (end, Now(socket, sub)) == RunLoop(old(Now(socket, sub)), env)
    {
      while true
        invariant RunLoop(Now(socket, sub), env) == RunLoop(old(Now(socket, sub)), env)
        decreases Remaining(socket.conn.input), |sub.arrivals|
      {
        ghost var s := Now(socket, sub);
        var next := sub.Next();
        if next.Some? {
          var sent := SendState(socket, next.value);
          assert Now(socket, sub) == SendSpec(s.(arrivals := s.arrivals[1..]), StateMessage(next.value)).1;
          if sent.Err? {
            return Aborted(WebsocketError(sent.error));
          }
        } else {
          var got := socket.Receive(buffer);
          ghost var s1 := s.(input := socket.conn.input, arrivals := Later(s.arrivals));
          assert Now(socket, sub) == s1;
          if got.Err? {
            return Aborted(WebsocketError(got.error));
          }
          if got.value.opcode == CLOSE {
            return Finished;
          }
          WebSocket.ReceiveShrinks(s.input, env.room, false);
          var d := OnPayload(socket, sub, buffer[..got.value.len], env);
          if d.Some? {
            return d.value;
          }
        }
      }
    }

    /** The start of `run_ws`, as `Greeting` says. */
    method Greet(socket: WebSocket.Websocket, sub: StateSubscriber, env: Env) returns (r: Result<(), HandlerError>)
      modifies socket.conn
      ensures (r, Now(socket, sub)) == Greeting(old(Now(socket, sub)), env, inner.doorState, inner.lockState)
    {
      ghost var s := Now(socket, sub);
      if inner.doorState.Some? {
        var sent := SendState(socket, Door(inner.doorState.value));
        if sent.Err? {
          return Err(WebsocketError(sent.error));
        }
      }
      ghost var d := SendStored(s, if inner.doorState.Some? then Some(Door(inner.doorState.value)) else None);
      assert Now(socket, sub) == d.1;
      if inner.lockState.Some? {
        var sent := SendState(socket, Lock(inner.lockState.value));
        if sent.Err? {
          return Err(WebsocketError(sent.error));
        }
      }
      ghost var l := SendStored(d.1, if inner.lockState.Some? then Some(Lock(inner.lockState.value)) else None);
      assert Now(socket, sub) == l.1;
      ghost var json := env.toJson(l.1.config);
      r := SendConfig(socket, env.toJson);
      if |json| < CONFIG_BUF {
        assert Now(socket, sub) == SendSpec(l.1, ConfigFrame(json)).1;
      }
    }

    /** `run_ws`, as `RunWsSpec` says for the stored states and the
        channel's subscribers; the subscriber's place is given back unless
        the device resets. `sub` is the subscriber the session gets, with the
        timing its `select`s see. */
    method RunWs(socket: WebSocket.Websocket, buffer: array<byte>, sub: StateSubscriber,
                 toJson: Config.Record -> seq<byte>, parse: seq<byte> -> Option<Config.ConfigUpdate>)
      returns (end: Ending)
      modifies socket.conn, buffer, sub, commands, inner.config, inner.storage, updates
      ensures (end, Now(socket, sub))
              == RunWsSpec(old(Now(socket, sub)), EnvOf(buffer.Length, toJson, parse), inner.doorState, inner.lockState, old(updates.subscribers))
      ensures end != Reset ==> updates.subscribers == old(updates.subscribers)
    {
      var env := EnvOf(buffer.Length, toJson, parse);
      var g := Greet(socket, sub, env);
      if g.Err? {
        return Aborted(g.error);
      }
      var ok := updates.Subscribe();
      if !ok {
        return Aborted(CustomError(SUBSCRIBE_FAILED));
      }
      end := Loop(socket, buffer, sub, env);
      if end != Reset {
        updates.Unsubscribe();
      }
    }
  }
}
