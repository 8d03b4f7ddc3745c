/** The bytes both web services and the browser exchange for states and
    commands (doorctrl/src/web/mod.rs:22-29 and firmware/src/web/mod.rs:25-33
    define the same values): a message of type 1 carries a state, and the
    same byte sent back by the browser asks for that lock state. */
module StateBytes {
  import opened Common
  import opened State

  const WS_STATE_UPDATE: byte := 1
  const WS_CONFIG_UPDATE: byte := 2
  const WS_LOCK_LOCK: byte := 1
  const WS_LOCK_UNLOCK: byte := 2
  const WS_DOOR_OPEN: byte := 3
  const WS_DOOR_CLOSED: byte := 4

  /** The two bytes a state update is sent as: type 1, then the state. */
  function StateMessage(s: AnyState): (m: seq<byte>)
    ensures |m| == 2 && m[0] == WS_STATE_UPDATE
  {
    var code := match s
      case Lock(Locked) => WS_LOCK_LOCK
      case Lock(Unlocked) => WS_LOCK_UNLOCK
      case Door(Open) => WS_DOOR_OPEN
      case Door(Closed) => WS_DOOR_CLOSED;
    [WS_STATE_UPDATE, code]
  }

  /** Distinct states are sent as distinct messages. */
  lemma StateMessageInjective(a: AnyState, b: AnyState)
    requires StateMessage(a) == StateMessage(b)
    ensures a == b
  {
  }

  /** The command a state-update byte from the client asks for: 1 locks,
      2 unlocks, anything else is only logged. */
  function Command(c: byte): (r: seq<LockState>)
    ensures c == WS_LOCK_LOCK <==> r == [Locked]
    ensures c == WS_LOCK_UNLOCK <==> r == [Unlocked]
    ensures |r| <= 1
  {
    if c == WS_LOCK_LOCK then [Locked]
    else if c == WS_LOCK_UNLOCK then [Unlocked]
    else []
  }

  /** A lock state's message, sent back, asks for that lock state; a door
      state's asks for nothing. */
  lemma CommandOfMessage(s: AnyState)
    ensures s.Lock? ==> Command(StateMessage(s)[1]) == [s.lock]
    ensures s.Door? ==> Command(StateMessage(s)[1]) == []
  {
  }
}
