/** The Home Assistant MQTT session (doorctrl/src/hass/mod.rs): connect,
    announce the device, subscribe to the lock command topic, then serve a
    race between incoming commands, state changes and a keepalive timer until
    something fails.

    The broker is not modelled: every network operation's outcome is an input
    (`None` for success, `Some(reason)` for the reason code it failed with),
    and the session records, in order, what it asked the client to do. */
module Hass {
  import opened Common
  import opened State
  import opened HassTopic

  /** A `rust_mqtt` reason code. */
  type Reason = nat

  const PAYLOAD_AVAILABLE: seq<byte> := Str("online")
  const PAYLOAD_NOT_AVAILABLE: seq<byte> := Str("offline")
  const PAYLOAD_LOCK: seq<byte> := Str("LOCK")
  const PAYLOAD_UNLOCK: seq<byte> := Str("UNLOCK")
  const STATE_LOCKED: seq<byte> := Str("LOCKED")
  const STATE_UNLOCKED: seq<byte> := Str("UNLOCKED")
  const STATE_OFF: seq<byte> := Str("OFF")
  const STATE_ON: seq<byte> := Str("ON")

  const BUFFER_LEN: nat := 1024
  const KEEPALIVE_SECS: nat := 60

  /** The five topics an `MQTTContext` holds. */
  datatype Topics = Topics(discovery: seq<byte>, availability: seq<byte>, lockCmd: seq<byte>,
                           lockState: seq<byte>, sensorState: seq<byte>)

  function TopicsOf(id: DeviceId): (r: Topics)
    ensures r.lockState != r.sensorState
  {
    TopicsDistinct(id);
    Topics(DiscoveryTopic(id), AvailabilityTopic(id), LockCommandTopic(id),
           LockStateTopic(id), SensorStateTopic(id))
  }

  /** A publish; every one the session sends is QoS 1. */
  datatype Message = Message(topic: seq<byte>, payload: seq<byte>, retain: bool)

  /** What the session asks of the client or of the door task. */
  datatype Action =
    | ConnectBroker
    | Publish(msg: Message)
    | Subscribe(topic: seq<byte>)
    | Ping
    | SendCommand(cmd: LockState)

  /** What won the `select3` race, with the outcome of the network operation
      that handling it performs. */
  datatype Work =
    | Received(data: seq<byte>)
    | ReceiveFailed(reason: Reason)
    | StateChanged(state: AnyState, sendError: Option<Reason>)
    | TimerFired(pingError: Option<Reason>)

  /** The outcomes of the network operations before the loop starts. */
  datatype ConnectResults = ConnectResults(broker: Option<Reason>, discovery: Option<Reason>,
                                           availability: Option<Reason>, subscribe: Option<Reason>)

  /** What a session did, and the error that ended it (`None`: still running). */
  datatype Outcome = Outcome(log: seq<Action>, err: Option<Reason>)

  /** The command a payload on the command topic asks for. */
  function CommandFor(data: seq<byte>): (r: Option<LockState>)
    ensures r == Some(Locked) <==> data == PAYLOAD_LOCK
    ensures r == Some(Unlocked) <==> data == PAYLOAD_UNLOCK
  {
    if data == PAYLOAD_LOCK then Some(Locked)
    else if data == PAYLOAD_UNLOCK then Some(Unlocked)
    else None
  }

  /** The payload that asks for a command. */
  function CommandPayload(c: LockState): seq<byte> {
    match c
    case Locked => PAYLOAD_LOCK
    case Unlocked => PAYLOAD_UNLOCK
  }

  /** Exactly the two command payloads are understood, each as its own command. */
  lemma CommandRoundTrip(c: LockState, data: seq<byte>)
    ensures CommandFor(CommandPayload(c)) == Some(c)
    ensures CommandFor(data) == Some(c) ==> data == CommandPayload(c)
  {
  }

  /** The publish that reports a state: lock states on the lock state topic,
      door states on the reed state topic, never retained. */
  function StateMessage(t: Topics, s: AnyState): (m: Message)
    ensures !m.retain
    ensures m.topic == (if s.Lock? then t.lockState else t.sensorState)
  {
    match s
    case Lock(Locked) => Message(t.lockState, STATE_LOCKED, false)
    case Lock(Unlocked) => Message(t.lockState, STATE_UNLOCKED, false)
    case Door(Open) => Message(t.sensorState, STATE_ON, false)
    case Door(Closed) => Message(t.sensorState, STATE_OFF, false)
  }

  /** How a subscriber reads a state publish back. */
  function StateOf(t: Topics, m: Message): Option<AnyState> {
    if m.topic == t.lockState && m.payload == STATE_LOCKED then Some(Lock(Locked))
    else if m.topic == t.lockState && m.payload == STATE_UNLOCKED then Some(Lock(Unlocked))
    else if m.topic == t.sensorState && m.payload == STATE_ON then Some(Door(Open))
    else if m.topic == t.sensorState && m.payload == STATE_OFF then Some(Door(Closed))
    else None
  }

  /** Every state is reported so that a subscriber recovers it, and distinct
      states give distinct publishes. */
  lemma StateRoundTrip(t: Topics, s: AnyState, s': AnyState)
    requires t.lockState != t.sensorState
    ensures StateOf(t, StateMessage(t, s)) == Some(s)
    ensures StateMessage(t, s) == StateMessage(t, s') ==> s == s'
  {
  }

  /** One pass of the loop in `run`. */
  function Handle(t: Topics, w: Work): (r: Outcome)
    ensures |r.log| <= 1
  {
    match w
    case Received(data) =>
      (match CommandFor(data)
       case Some(c) => Outcome([SendCommand(c)], None)
       case None => Outcome([], None))
    case ReceiveFailed(e) => Outcome([], Some(e))
    case StateChanged(s, sendError) => Outcome([Publish(StateMessage(t, s))], sendError)
    case TimerFired(pingError) => Outcome([Ping], pingError)
  }

  /** The first outcome followed by the second. */
  function Join(a: Outcome, b: Outcome): Outcome {
    Outcome(a.log + b.log, b.err)
  }

  /** The loop of `run` over a finite sequence of race winners: it stops at the
      first failure. */
  function Loop(t: Topics, works: seq<Work>): (r: Outcome)
    decreases |works|
  {
    if works == [] then Outcome([], None)
    else
      var o := Handle(t, works[0]);
      if o.err.Some? then o else Join(o, Loop(t, works[1..]))
  }

  /** The client configuration's last will: "offline", not retained, on the
      availability topic. */
  function Will(t: Topics): Message {
    Message(t.availability, PAYLOAD_NOT_AVAILABLE, false)
  }

  /** `connect`: the broker connection, the discovery document (not retained),
      then "online" on the availability topic (retained), stopping at the first
      failure. */
  function ConnectSpec(t: Topics, discovery: seq<byte>, o: ConnectResults): (r: Outcome)
    ensures r.err == None <==> o.broker == None && o.discovery == None && o.availability == None
  {
    if o.broker.Some? then Outcome([ConnectBroker], o.broker)
    else if o.discovery.Some? then Outcome([ConnectBroker, Publish(Message(t.discovery, discovery, false))], o.discovery)
    else Outcome([ConnectBroker, Publish(Message(t.discovery, discovery, false)),
                  Publish(Message(t.availability, PAYLOAD_AVAILABLE, true))], o.availability)
  }

  /** `run`: connect, subscribe to the command topic, then loop. */
  function RunSpec(t: Topics, discovery: seq<byte>, o: ConnectResults, works: seq<Work>): Outcome {
    var c := ConnectSpec(t, discovery, o);
    if c.err.Some? then c
    else
      var s := Join(c, Outcome([Subscribe(t.lockCmd)], o.subscribe));
      if s.err.Some? then s else Join(s, Loop(t, works))
  }

  /** The latest command in a log. */
  function LastCommand(log: seq<Action>): (r: Option<LockState>)
    ensures r.Some? ==> SendCommand(r.value) in log
    decreases |log|
  {
    if log == [] then None
    else if log[|log| - 1].SendCommand? then Some(log[|log| - 1].cmd)
    else LastCommand(log[..|log| - 1])
  }

  /** The command channel after a log: each command clears it and sends, so it
      holds the latest command alone, or what it held if there was none. */
  function Channel(c: seq<LockState>, log: seq<Action>): seq<LockState> {
    match LastCommand(log)
    case None => c
    case Some(x) => [x]
  }

  /** Actions other than commands leave the channel alone. */
  lemma {:induction false} ChannelWithoutCommands(c: seq<LockState>, log: seq<Action>)
    requires forall i :: 0 <= i < |log| ==> !log[i].SendCommand?
    ensures Channel(c, log) == c
    decreases |log|
  {
    if log != [] {
      ChannelWithoutCommands(c, log[..|log| - 1]);
    }
  }

  lemma {:induction false} ChannelAppend(c: seq<LockState>, a: seq<Action>, b: seq<Action>)
    ensures Channel(c, a + b) == Channel(Channel(c, a), b)
    decreases |b|
  {
    if b == [] {
      assert a + b == a;
    } else {
      assert (a + b)[..|a + b| - 1] == a + b[..|b| - 1];
      ChannelAppend(c, a, b[..|b| - 1]);
    }
  }

  /** The channel holds the latest command of the log, whatever it held before. */
  lemma {:induction false} ChannelLatest(c: seq<LockState>, a: seq<Action>, x: LockState, b: seq<Action>)
    requires forall i :: 0 <= i < |b| ==> !b[i].SendCommand?
    ensures Channel(c, a + [SendCommand(x)] + b) == [x]
  {
    ChannelAppend(c, a + [SendCommand(x)], b);
    ChannelAppend(c, a, [SendCommand(x)]);
    assert [SendCommand(x)][1..] == [];
    ChannelWithoutCommands([x], b);
  }

  /** One more race winner extends the loop's outcome by what handling it
      does; the invariant of `Serve`. */
  lemma {:induction false} LoopSnoc(t: Topics, a: seq<Work>, w: Work)
    requires Loop(t, a).err == None
    ensures Loop(t, a + [w]) == Join(Loop(t, a), Handle(t, w))
  {
    LoopAppend(t, a, [w]);
    assert [w][1..] == [];
  }

  /** One pass of the loop of `Serve`: the outcome so far grows by what
      handling `works[i]` does, and a failure there is the whole outcome. */
  lemma LoopStep(t: Topics, works: seq<Work>, i: nat, acc: seq<Action>)
    requires i < |works| && Loop(t, works[..i]) == Outcome(acc, None)
    ensures Loop(t, works[..i + 1]) == Outcome(acc + Handle(t, works[i]).log, Handle(t, works[i]).err)
    ensures Handle(t, works[i]).err.Some? ==> Loop(t, works) == Loop(t, works[..i + 1])
  {
    LoopSnoc(t, works[..i], works[i]);
    assert works[..i] + [works[i]] == works[..i + 1];
    if Handle(t, works[i]).err.Some? {
      LoopStopped(t, works[..i + 1], works[i + 1..]);
      assert works[..i + 1] + works[i + 1..] == works;
    }
  }

  /** Once the loop has failed, later race winners change nothing. */
  lemma {:induction false} LoopStopped(t: Topics, a: seq<Work>, b: seq<Work>)
    requires Loop(t, a).err.Some?
    ensures Loop(t, a + b) == Loop(t, a)
    decreases |a|
  {
    assert a != [];
    assert (a + b)[0] == a[0] && (a + b)[1..] == a[1..] + b;
    if Handle(t, a[0]).err.None? {
      LoopStopped(t, a[1..], b);
    }
  }

  lemma {:induction false} LoopAppend(t: Topics, a: seq<Work>, b: seq<Work>)
    requires Loop(t, a).err == None
    ensures Loop(t, a + b) == Join(Loop(t, a), Loop(t, b))
    decreases |a|
  {
    if a == [] {
      assert a + b == b;
    } else {
      var h := Handle(t, a[0]);
      assert h.err == None;
      assert (a + b)[0] == a[0] && (a + b)[1..] == a[1..] + b;
      LoopAppend(t, a[1..], b);
      var x, y := Loop(t, a[1..]), Loop(t, b);
      assert Loop(t, a + b) == Join(h, Join(x, y));
      assert Loop(t, a) == Join(h, x);
      Associative(h.log, x.log, y.log);
    }
  }

  /** The loop ends with an error exactly when some work failed, and then it is
      the first failure: nothing after it is handled. */
  lemma {:induction false} LoopStopsAtFirstError(t: Topics, a: seq<Work>, w: Work, b: seq<Work>)
    requires Loop(t, a).err == None && Handle(t, w).err.Some?
    ensures Loop(t, a + [w] + b) == Join(Loop(t, a), Handle(t, w))
  {
    LoopAppend(t, a, [w] + b);
    assert a + [w] + b == a + ([w] + b);
    assert ([w] + b)[0] == w;
  }

  lemma {:induction false} LoopNoError(t: Topics, works: seq<Work>)
    ensures Loop(t, works).err == None <==> forall i :: 0 <= i < |works| ==> Handle(t, works[i]).err == None
    decreases |works|
  {
    if works != [] {
      LoopNoError(t, works[1..]);
      assert forall i :: 1 <= i < |works| ==> works[i] == works[1..][i - 1];
    }
  }

  /** A session that gets as far as its loop has connected, announced the
      device, gone online and subscribed, in that order. */
  lemma RunOrder(t: Topics, discovery: seq<byte>, o: ConnectResults, works: seq<Work>)
    requires o == ConnectResults(None, None, None, None)
    ensures RunSpec(t, discovery, o, works).log
            == [ConnectBroker, Publish(Message(t.discovery, discovery, false)),
                Publish(Message(t.availability, PAYLOAD_AVAILABLE, true)), Subscribe(t.lockCmd)]
               + Loop(t, works).log
  {
  }

  /** The will and the online message share the availability topic. */
  lemma WillMatchesAvailability(t: Topics, discovery: seq<byte>, o: ConnectResults)
    requires ConnectSpec(t, discovery, o).err == None
    ensures ConnectSpec(t, discovery, o).log[2].msg.topic == Will(t).topic
    ensures ConnectSpec(t, discovery, o).log[2].msg.payload != Will(t).payload
  {
  }

  /** A lock command from the broker that the door task carries out comes back
      as "LOCKED" on the lock state topic. */
  lemma LockCommandEchoes(t: Topics, data: seq<byte>, c: LockState)
    requires Handle(t, Received(data)).log == [SendCommand(c)]
    ensures StateMessage(t, Lock(c)).payload == (if data == PAYLOAD_LOCK then STATE_LOCKED else STATE_UNLOCKED)
    ensures data == PAYLOAD_LOCK || data == PAYLOAD_UNLOCK
  {
  }

  /** `run` is the connection, then the subscription, then the loop. */
  lemma RunParts(t: Topics, discovery: seq<byte>, o: ConnectResults, works: seq<Work>)
    ensures var c := ConnectSpec(t, discovery, o);
            var l := Loop(t, works);
            RunSpec(t, discovery, o, works)
            == if c.err.Some? then c
               else Outcome(c.log + ([Subscribe(t.lockCmd)] + (if o.subscribe.Some? then [] else l.log)),
                            if o.subscribe.Some? then o.subscribe else l.err)
  {
    var c := ConnectSpec(t, discovery, o);
    if c.err.None? && o.subscribe.None? {
      assert c.log + [Subscribe(t.lockCmd)] + Loop(t, works).log == c.log + ([Subscribe(t.lockCmd)] + Loop(t, works).log);
    } else if c.err.None? {
      assert [Subscribe(t.lockCmd)] + [] == [Subscribe(t.lockCmd)];
    }
  }

  /** Connecting and subscribing send no command: the channel after `run`
      is what the loop leaves in it. */
  lemma RunChannel(t: Topics, discovery: seq<byte>, o: ConnectResults, works: seq<Work>, c: seq<LockState>)
    ensures Channel(c, RunSpec(t, discovery, o, works).log)
            == if ConnectSpec(t, discovery, o).err.None? && o.subscribe.None? then Channel(c, Loop(t, works).log) else c
  {
    var prelude := ConnectSpec(t, discovery, o).log + [Subscribe(t.lockCmd)];
    assert forall i :: 0 <= i < |prelude| ==> !prelude[i].SendCommand?;
    ChannelWithoutCommands(c, prelude);
    ChannelWithoutCommands(c, ConnectSpec(t, discovery, o).log);
    if ConnectSpec(t, discovery, o).err.None? && o.subscribe.None? {
      ChannelAppend(c, prelude, Loop(t, works).log);
    }
  }

  /** An `MQTTContext`, with the client's record of what it was asked to do and
      the command channel to the door task. */
  class MqttContext {
    const deviceId: DeviceId
    const topics: Topics
    var log: seq<Action>
    var channel: seq<LockState>

    /** `MQTTContext::new`. */
    constructor(id: DeviceId)
      ensures deviceId == id && topics == TopicsOf(id)
      ensures log == [] && channel == []
    {
      deviceId := id;
      var d := MkDiscoveryTopic(id);
      var a := MkAvailabilityTopic(id);
      var c := MkLockCommandTopic(id);
      var l := MkLockStateTopic(id);
      var s := MkSensorStateTopic(id);
      topics := Topics(d[..], a[..], c[..], l[..], s[..]);
      log := [];
      channel := [];
    }

    /** `connect`. */
    method Connect(discovery: seq<byte>, o: ConnectResults) returns (err: Option<Reason>)
      modifies this
      ensures log == old(log) + ConnectSpec(topics, discovery, o).log
      ensures err == ConnectSpec(topics, discovery, o).err
      ensures channel == old(channel)
    {
      log := log + [ConnectBroker];
      if o.broker.Some? {
        return o.broker;
      }
      log := log + [Publish(Message(topics.discovery, discovery, false))];
      if o.discovery.Some? {
        return o.discovery;
      }
      log := log + [Publish(Message(topics.availability, PAYLOAD_AVAILABLE, true))];
      if o.availability.Some? {
        return o.availability;
      }
      return None;
    }

    /** One pass of the loop in `run`: the `match` on what won the race. */
    method HandleWork(w: Work) returns (err: Option<Reason>)
      modifies this
      ensures log == old(log) + Handle(topics, w).log
      ensures err == Handle(topics, w).err
      ensures channel == Channel(old(channel), Handle(topics, w).log)
    {
      match w
      case Received(data) =>
        if data == PAYLOAD_LOCK {
          channel := [];
          channel := channel + [Locked];
          log := log + [SendCommand(Locked)];
        } else if data == PAYLOAD_UNLOCK {
          channel := [];
          channel := channel + [Unlocked];
          log := log + [SendCommand(Unlocked)];
        }
        return None;
      case ReceiveFailed(e) =>
        return Some(e);
      case StateChanged(s, sendError) =>
        log := log + [Publish(StateMessage(topics, s))];
        assert [Publish(StateMessage(topics, s))][..0] == [];
        return sendError;
      case TimerFired(pingError) =>
        log := log + [Ping];
        assert [Ping][..0] == [];
        return pingError;
    }

    /** The loop of `run` over a finite sequence of race winners; `None` means
        it is still running when they run out. */
    method Serve(works: seq<Work>) returns (err: Option<Reason>)
      modifies this
      ensures log == old(log) + Loop(topics, works).log
      ensures err == Loop(topics, works).err
      ensures channel == Channel(old(channel), Loop(topics, works).log)
    {
      ghost var acc: seq<Action> := [];
      for i := 0 to |works|
        invariant Loop(topics, works[..i]) == Outcome(acc, None)
        invariant log == old(log) + acc
        invariant channel == Channel(old(channel), acc)
      {
        ghost var h := Handle(topics, works[i]);
        ghost var before := log;
        err := HandleWork(works[i]);
        assert log == old(log) + (acc + h.log) by {
          assert log == before + h.log;
        }
        LoopStep(topics, works, i, acc);
        ChannelAppend(old(channel), acc, h.log);
        acc := acc + h.log;
        if err.Some? {
          return;
        }
      }
      assert works[..|works|] == works;
      return None;
    }

    /** `run`. */
    method Run(discovery: seq<byte>, o: ConnectResults, works: seq<Work>) returns (err: Option<Reason>)
      modifies this
      ensures log == old(log) + RunSpec(topics, discovery, o, works).log
      ensures err == RunSpec(topics, discovery, o, works).err
      ensures channel == Channel(old(channel), RunSpec(topics, discovery, o, works).log)
    {
      RunChannel(topics, discovery, o, works, old(channel));
      RunParts(topics, discovery, o, works);
      ghost var start := log;
      err := Connect(discovery, o);
      if err.Some? {
        return;
      }
      ghost var connected := ConnectSpec(topics, discovery, o).log;
      ghost var listened := [Subscribe(topics.lockCmd)] + (if o.subscribe.Some? then [] else Loop(topics, works).log);
      err := Listen(o, works);
      Associative(start, connected, listened);
    }

    /** Once connected: subscribe to the command topic, then serve. */
    method Listen(o: ConnectResults, works: seq<Work>) returns (err: Option<Reason>)
      modifies this
      ensures log == old(log) + ([Subscribe(topics.lockCmd)] + (if o.subscribe.Some? then [] else Loop(topics, works).log))
      ensures err == if o.subscribe.Some? then o.subscribe else Loop(topics, works).err
      ensures channel == if o.subscribe.Some? then old(channel) else Channel(old(channel), Loop(topics, works).log)
    {
      log := log + [Subscribe(topics.lockCmd)];
      if o.subscribe.Some? {
        return o.subscribe;
      }
      ghost var mid := log;
      err := Serve(works);
      assert log == mid + Loop(topics, works).log;
    }
  }
}
