/** The states the door controller reports and the commands it accepts
    (doorctrl/src/state/mod.rs). */
module State {
  datatype LockState = Locked | Unlocked

  datatype DoorState = Open | Closed

  datatype AnyState = Lock(lock: LockState) | Door(door: DoorState)
}
