/** What travels through the door service: the events of its queue, the admin's commands, the
    replies, and the records of its audit log. */
module Events {
  import opened Basics

  /** What a door sensor believes about its door. */
  datatype Reading = UNKNOWN | OPEN | CLOSED

  datatype LockState = LOCKED | UNLOCKED

  /** The `seconds` argument of `set_unlock_duration` after `float()`: an infinity fails the range
      test exactly as NaN does. */
  datatype Seconds = NotANumber | NotFinite | Finite(value: real)

  /** The admin's commands with their arguments as text; `None` where a boolean argument is not a
      boolean. The type a `login_event` logs is arbitrary. */
  datatype Command =
    | ArmEnroll(name: string)
    | EnrollStatus
    | CancelEnroll
    | Status
    | HardwareConfig
    | ListTags
    | UnlockDoor
    | LockDoor
    | SetUnlockDuration(seconds: Seconds)
    | SetLockPolarity(activeLow: Option<bool>)
    | SetDoorPolarity(door: string, activeLow: Option<bool>)
    | AddTag(uid: string, name: string)
    | RemoveTag(uid: string)
    | RenameTag(uid: string, name: string)
    | LoginEvent(kind: Kind, detail: string)
    | UnknownCommand(cmd: string)

  /** A request line that parsed as JSON: an object carries a command, anything else does not. */
  datatype Request = Object(command: Command, actor: string) | NotAnObject

  /** `timer` names the relock timer that posted an expiry and `conn` the connection that posted a
      command; the program tells neither apart. */
  datatype Event =
    | NfcUid(uid: string)
    | ButtonPress
    | DoorState(door: string, state: Reading)
    | DoorAlert(door: string, elapsed: real)
    | WebCommand(request: Request, conn: nat)
    | UnlockTimerExpired(timer: nat)

  /** How an armed scan, or the lack of one, ended. */
  datatype Capture =
    | Added(uid: string, name: string)
    | Already(uid: string, name: string)
    | NotSaved(uid: string)
    | TimedOut

  datatype Failure =
    | DurationNotANumber
    | DurationOutOfRange
    | PolarityNotABoolean
    | NoSuchDoor(door: string)
    | UidNotHex
    | UidAssigned(uid: string, name: string)
    | NoSuchTag
    | NameEmpty
    | CouldNotWriteConfig
    | NoSuchCommand(cmd: string)

  datatype DoorPolarity = DoorPolarity(door: string, activeLow: bool)

  datatype Result =
    | Armed(seconds: real)
    | EnrollState(armed: bool, remaining: int, capture: Option<Capture>)
    | Disarmed
    | ServiceStatus(lock: LockState, duration: real, doors: seq<string>, tagCount: nat)
    | Hardware(lockActiveLow: bool, polarities: seq<DoorPolarity>)
    | Tags(tags: map<string, string>)
    | LockIs(lock: LockState)
    | DurationIs(duration: real)
    | LockPolarityIs(activeLow: bool, changed: bool)
    | DoorPolarityIs(door: string, activeLow: bool, state: Option<Reading>)
    | TagIs(uid: string, name: string)
    | Logged

  datatype Response = Ok(result: Result) | Fail(failure: Failure)

  /** The type column of an audit record. */
  datatype Kind =
    | ENROLL_ARMED
    | TAG_SCAN_DUPLICATE
    | TAG_ADDED
    | TAG_REMOVED
    | TAG_RENAMED
    | ACCESS_GRANTED
    | ACCESS_DENIED
    | BUTTON_UNLOCK
    | WEB_UNLOCK
    | WEB_LOCK
    | DOOR_STATE
    | DOOR_OPEN_TOO_LONG
    | SET_UNLOCK_DURATION
    | SET_LOCK_POLARITY
    | SET_DOOR_POLARITY
    | OtherKind(text: string)

  datatype Detail =
    | NoDetail
    | Text(text: string)
    | StateDetail(state: Reading)
    | ElapsedDetail(elapsed: real)
    | DurationChange(seconds: real, was: real)
    | PolarityChange(activeLow: bool, wasActiveLow: bool)

  datatype Record = Record(kind: Kind, uid: Option<string>, name: Option<string>, granted: Option<bool>,
                           door: Option<string>, actor: Option<string>, detail: Detail)

  function Entry(kind: Kind): Record {
    Record(kind, None, None, None, None, None, NoDetail)
  }

  /** What the service publishes over MQTT. */
  datatype Message =
    | TagScanned(uid: string)
    | LockStateIs(lock: LockState)
    | LastAccess(uid: string, name: string, granted: bool)
    | DoorStateIs(door: string, state: Reading)
    | DoorAlertIs(door: string, elapsed: real)
    | Alert(kind: Kind, uid: string, name: string)

  const QUEUE_CAPACITY := 100

  /** `put_nowait` on the bounded event queue: a full queue drops the event. */
  function Put(queue: seq<Event>, e: Event): (r: seq<Event>)
    ensures |queue| <= QUEUE_CAPACITY ==> |r| <= QUEUE_CAPACITY
  {
    if |queue| < QUEUE_CAPACITY then queue + [e] else queue
  }

  /** The event queue shared by every thread of the service. */
  class EventQueue {
    var items: seq<Event>

    constructor ()
      ensures items == []
    {
      items := [];
    }

    method PutNowait(e: Event) returns (ok: bool)
      modifies this
      ensures items == Put(old(items), e)
      ensures ok <==> |old(items)| < QUEUE_CAPACITY
    {
      ok := |items| < QUEUE_CAPACITY;
      if ok {
        items := items + [e];
      }
    }
  }
}
