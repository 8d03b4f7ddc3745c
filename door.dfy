/** The door task (doorctrl/src/door/mod.rs): it drives the lock pin on lock and
    unlock commands and turns reed-switch edges into door states, publishing
    every state it reaches. The `select` between the command channel and the
    reed pin is an input event; the state channel is the log of what was
    published. */
module DoorTask {
  import opened Common
  import opened State

  datatype PinState = Low | High

  /** What the task's `select` returned. A command carries whether setting the
      lock pin succeeded; an edge carries the reed level read after it, or
      `None` when that read failed. */
  datatype Event =
    | Command(cmd: LockState, pinOk: bool)
    | Edge(level: Option<PinState>)
    | EdgeFailed

  /** The task's state: the lock pin, the last reed level seen, and what it has
      published so far. */
  datatype Snapshot = Snapshot(lockPin: PinState, lastReed: PinState, published: seq<AnyState>)

  /** The pin level that means a lock state: low is locked. */
  function PinFor(s: LockState): (r: PinState)
    ensures (r == Low) <==> s == Locked
  {
    match s
    case Locked => Low
    case Unlocked => High
  }

  /** The door state a reed level means: the reed grounds the pin when the door
      is closed. */
  function DoorFor(level: PinState): (r: DoorState)
    ensures (r == Closed) <==> level == Low
  {
    if level == Low then Closed else Open
  }

  /** One pass of the `run` loop. */
  function Step(d: Snapshot, e: Event): (r: Snapshot)
    ensures |d.published| <= |r.published| <= |d.published| + 1
    ensures r.published[..|d.published|] == d.published
  {
    match e
    case Command(cmd, pinOk) =>
      if pinOk then d.(lockPin := PinFor(cmd), published := d.published + [Lock(cmd)]) else d
    case Edge(Some(level)) =>
      if level != d.lastReed then d.(lastReed := level, published := d.published + [AnyState.Door(DoorFor(level))])
      else d
    case Edge(None) => d
    case EdgeFailed => d
  }

  /** The `run` loop over a sequence of events. */
  function Run(d: Snapshot, events: seq<Event>): (r: Snapshot)
    decreases |events|
  {
    if events == [] then d else Run(Step(d, events[0]), events[1..])
  }

  /** The door states in a log, in order. */
  function DoorStates(log: seq<AnyState>): (r: seq<DoorState>)
    ensures |r| <= |log|
  {
    if log == [] then []
    else if log[|log| - 1].Door? then DoorStates(log[..|log| - 1]) + [log[|log| - 1].door]
    else DoorStates(log[..|log| - 1])
  }

  /** The lock states in a log, in order. */
  function LockStates(log: seq<AnyState>): (r: seq<LockState>)
    ensures |r| <= |log|
  {
    if log == [] then []
    else if log[|log| - 1].Lock? then LockStates(log[..|log| - 1]) + [log[|log| - 1].lock]
    else LockStates(log[..|log| - 1])
  }

  /** Consecutive door states differ. */
  predicate Alternates(s: seq<DoorState>) {
    forall i :: 0 < i < |s| ==> s[i] != s[i - 1]
  }

  /** What the task keeps true: published door states alternate and the last
      one matches the last reed level; the last published lock state matches
      the lock pin. */
  ghost predicate Consistent(d: Snapshot) {
    var doors := DoorStates(d.published);
    var locks := LockStates(d.published);
    && Alternates(doors)
    && (doors != [] ==> doors[|doors| - 1] == DoorFor(d.lastReed))
    && (locks != [] ==> PinFor(locks[|locks| - 1]) == d.lockPin)
  }

  /** `Door::new` leaves the reed level low and nothing published; `run` then
      raises it when the first read of the reed pin says high. */
  function Start(lockPin: PinState, reedHigh: Option<bool>): (r: Snapshot)
    ensures r.published == [] && Consistent(r)
    ensures r.lastReed == High <==> reedHigh == Some(true)
  {
    Snapshot(lockPin, if reedHigh == Some(true) then High else Low, [])
  }

  lemma {:induction false} StepKeepsConsistent(d: Snapshot, e: Event)
    requires Consistent(d)
    ensures Consistent(Step(d, e))
  {
    var r := Step(d, e);
    match e
    case Command(cmd, pinOk) =>
      if pinOk {
        assert r.published[..|r.published| - 1] == d.published;
        assert DoorStates(r.published) == DoorStates(d.published);
        assert LockStates(r.published) == LockStates(d.published) + [cmd];
      }
    case Edge(Some(level)) =>
      if level != d.lastReed {
        var doors := DoorStates(d.published);
        assert r.published[..|r.published| - 1] == d.published;
        assert DoorStates(r.published) == doors + [DoorFor(level)];
        assert LockStates(r.published) == LockStates(d.published);
        if doors != [] {
          assert doors[|doors| - 1] == DoorFor(d.lastReed) != DoorFor(level);
        }
      }
    case Edge(None) =>
    case EdgeFailed =>
  }

  /** The invariant holds after any run that starts from `Door::new`. */
  lemma {:induction false} RunKeepsConsistent(d: Snapshot, events: seq<Event>)
    requires Consistent(d)
    ensures Consistent(Run(d, events))
    decreases |events|
  {
    if events != [] {
      StepKeepsConsistent(d, events[0]);
      RunKeepsConsistent(Step(d, events[0]), events[1..]);
    }
  }

  /** A door state is published exactly when the reed level read after an edge
      differs from the last one, and it is the state that level means. */
  lemma EdgePublishes(d: Snapshot, level: PinState)
    ensures var r := Step(d, Edge(Some(level)));
            && (|r.published| == |d.published| + 1 <==> level != d.lastReed)
            && r.lastReed == level
            && (level != d.lastReed ==> r.published[|d.published|] == AnyState.Door(DoorFor(level)))
  {
  }

  /** A command publishes the commanded lock state and sets the pin to match,
      unless setting the pin failed, which changes nothing. */
  lemma CommandPublishes(d: Snapshot, cmd: LockState, pinOk: bool)
    ensures var r := Step(d, Command(cmd, pinOk));
            && (pinOk ==> r.lockPin == PinFor(cmd) && r.published == d.published + [Lock(cmd)])
            && (!pinOk ==> r == d)
  {
  }

  /** Everything a run publishes is added at the end of the log. */
  lemma {:induction false} RunExtends(d: Snapshot, events: seq<Event>)
    ensures d.published <= Run(d, events).published
    ensures |Run(d, events).published| <= |d.published| + |events|
    decreases |events|
  {
    if events != [] {
      RunExtends(Step(d, events[0]), events[1..]);
    }
  }

  /** The task object: the fields `Door` updates in place. */
  class DoorCtrl {
    var lockPin: PinState
    var lastReed: PinState
    var published: seq<AnyState>

    function State(): Snapshot
      reads this
    {
      Snapshot(lockPin, lastReed, published)
    }

    /** `Door::new`: the reed level starts low. */
    constructor(lockPin: PinState)
      ensures State() == Snapshot(lockPin, Low, [])
    {
      this.lockPin := lockPin;
      lastReed := Low;
      published := [];
    }

    /** `lock`: set the pin low, then publish Locked; a pin error is returned
        before anything is published. */
    method Lock(pinOk: bool) returns (ok: bool)
      modifies this
      ensures ok == pinOk
      ensures State() == Step(old(State()), Command(Locked, pinOk))
    {
      if !pinOk {
        return false;
      }
      lockPin := Low;
      published := published + [AnyState.Lock(Locked)];
      return true;
    }

    /** `unlock`: set the pin high, then publish Unlocked. */
    method Unlock(pinOk: bool) returns (ok: bool)
      modifies this
      ensures ok == pinOk
      ensures State() == Step(old(State()), Command(Unlocked, pinOk))
    {
      if !pinOk {
        return false;
      }
      lockPin := High;
      published := published + [AnyState.Lock(Unlocked)];
      return true;
    }

    /** One pass of the loop in `run`. */
    method Handle(e: Event)
      modifies this
      ensures State() == Step(old(State()), e)
    {
      match e
      case Command(Locked, pinOk) =>
        var _ := Lock(pinOk);
      case Command(Unlocked, pinOk) =>
        var _ := Unlock(pinOk);
      case Edge(Some(level)) =>
        if level == Low {
          if lastReed == High {
            published := published + [AnyState.Door(Closed)];
          }
          lastReed := Low;
        } else {
          if lastReed == Low {
            published := published + [AnyState.Door(Open)];
          }
          lastReed := High;
        }
      case Edge(None) =>
      case EdgeFailed =>
    }

    /** `run`: read the reed pin once, then handle the events in order. */
    method RunTask(reedHigh: Option<bool>, events: seq<Event>)
      modifies this
      ensures State() == Run(old(State()).(lastReed := if reedHigh == Some(true) then High else old(lastReed)), events)
    {
      if reedHigh == Some(true) {
        lastReed := High;
      }
      ghost var start := State();
      for i := 0 to |events|
        invariant Run(start, events) == Run(State(), events[i..])
      {
        assert events[i..][0] == events[i] && events[i..][1..] == events[i + 1..];
        Handle(events[i]);
      }
    }
  }

  /** The task started by `Door::new` and `run` keeps its invariant over any
      sequence of events. */
  lemma RunFromNew(lockPin: PinState, reedHigh: Option<bool>, events: seq<Event>)
    ensures Consistent(Run(Start(lockPin, reedHigh), events))
  {
    RunKeepsConsistent(Start(lockPin, reedHigh), events);
  }

  /** With the door shut at start (reed low) and then opened and closed again,
      the task publishes Open then Closed; a repeated level publishes nothing. */
  lemma OpenCloseExample(lockPin: PinState)
    ensures Run(Start(lockPin, Some(false)), [Edge(Some(High)), Edge(Some(High)), Edge(Some(Low))]).published
            == [AnyState.Door(Open), AnyState.Door(Closed)]
  {
  }
}
