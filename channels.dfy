/** The embassy channels the web services share with the rest of the
    firmware: the lock-command channel, the subscriber of the state-update
    channel together with the timing of the `select` that waits on it, and
    the state-update channel's count of subscribers
    (`PubSubChannel<_, AnyState, 2, 6, 0>`). */
module Channels {
  import opened Common
  import opened State

  /** The sending half of the command channel: every command sent, in order. */
  class CommandSender {
    var sent: seq<LockState>

    constructor ()
      ensures sent == []
    {
      sent := [];
    }

    method Send(l: LockState)
      modifies this
      ensures sent == old(sent) + [l]
    {
      sent := sent + [l];
    }
  }

  /** A state subscriber together with the timing of the `select` in a
      `run_ws`: for each wait, whether a state message (`Some`) or the
      client (`None`) is ready first. Once the list is used up the client
      always comes first. */
  class StateSubscriber {
    var arrivals: seq<Option<AnyState>>

    constructor (arrivals: seq<Option<AnyState>>)
      ensures this.arrivals == arrivals
    {
      this.arrivals := arrivals;
    }

    /** One `select`: the state message that wins it, if one does. */
    method Next() returns (a: Option<AnyState>)
      modifies this
      ensures a == (if old(arrivals) == [] then None else old(arrivals)[0])
      ensures arrivals == Later(old(arrivals))
    {
      if arrivals == [] {
        return None;
      }
      a := arrivals[0];
      arrivals := arrivals[1..];
    }
  }

  function Later(arrivals: seq<Option<AnyState>>): seq<Option<AnyState>> {
    if arrivals == [] then [] else arrivals[1..]
  }

  /** The most subscribers the state-update channel admits at once. */
  const MAX_SUBSCRIBERS: nat := 6

  /** The state-update channel's bookkeeping of its subscribers. */
  class StateChannel {
    var subscribers: nat

    constructor (subscribers: nat)
      ensures this.subscribers == subscribers
    {
      this.subscribers := subscribers;
    }

    /** `subscriber()`: refused once all six places are taken. */
    method Subscribe() returns (ok: bool)
      modifies this
      ensures ok <==> old(subscribers) < MAX_SUBSCRIBERS
      ensures subscribers == if ok then old(subscribers) + 1 else old(subscribers)
    {
      ok := subscribers < MAX_SUBSCRIBERS;
      if ok {
        subscribers := subscribers + 1;
      }
    }

    /** Dropping a subscriber gives its place back. */
    method Unsubscribe()
      requires subscribers > 0
      modifies this
      ensures subscribers == old(subscribers) - 1
    {
      subscribers := subscribers - 1;
    }
  }
}
