/** What the event loop does with each event: the meaning of every handler as a function of the
    service's state. `DoorService` is the program that computes it in place. */
module Dispatcher {
  import opened Basics
  import opened Events
  import opened ConfigFile
  import opened LockController
  import opened Uid
  import DoorSensor

  type Sensor = DoorSensor.Sensor

  /** The enrollment part of the run-time state. */
  datatype Enroll = Enroll(armed: bool, deadline: real, name: string, actor: string, result: Option<Capture>)

  /** Everything the dispatcher owns: the lock, the sensors it may reconfigure, the configuration in
      memory and on disk, the enrollment state, the audit log and the messages published so far. */
  datatype Door = Door(lock: Lock, sensors: seq<Sensor>, config: Config, disk: Disk, enroll: Enroll,
                       storeUp: bool, log: seq<Record>, mqtt: seq<Message>)

  /** The world during one dispatch: the monotonic clock, the step at which a save fails, if any, and
      whether the audit log refuses insertions. */
  datatype Env = Env(now: real, fault: Option<Step>, logFails: bool)

  const ENROLL_WINDOW_SECONDS := 60.0
  const PRUNE_INTERVAL_SECONDS := 24.0 * 60.0 * 60.0

  function Recorded(d: Door, rec: Record, env: Env): Door {
    if d.storeUp && !env.logFails then d.(log := d.log + [rec]) else d
  }

  function Published(d: Door, m: Message): Door {
    d.(mqtt := d.mqtt + [m])
  }

  /** The name given to a tag enrolled without one. */
  function TagName(uid: string): string {
    "Tag " + uid[|uid| - Min(4, |uid|)..]
  }

  function CleanName(name: string): string {
    Clip(Strip(name), 64)
  }

  function NameOr(name: string, uid: string): string {
    if name == "" then TagName(uid) else name
  }

  function NotArmed(e: Enroll): Enroll {
    e.(armed := false, deadline := 0.0)
  }

  function TagRecord(kind: Kind, uid: string, name: string, actor: string, detail: Detail): Record {
    Entry(kind).(uid := Some(uid), name := Some(name), actor := Some(actor), detail := detail)
  }

  function AccessRecord(kind: Kind, uid: string, name: string, granted: bool): Record {
    Entry(kind).(uid := Some(uid), name := Some(name), granted := Some(granted))
  }

  // ----- Scans.

  function TagCaptured(d: Door, uid: string, name: string, actor: string, env: Env): Door {
    Published(
      Recorded(d.(enroll := d.enroll.(result := Some(Added(uid, name)))),
               TagRecord(TAG_ADDED, uid, name, actor, Text("scanned at door reader")), env),
      Alert(TAG_ADDED, uid, name))
  }

  /** The capture of a tag that was not enrolled, under the name the reader was armed with. */
  function Enrolled(d: Door, uid: string, actor: string, env: Env): Door {
    var name := NameOr(CleanName(d.enroll.name), uid);
    var config := d.config.(authorized := d.config.authorized[uid := name]);
    var disk := Saved(d.disk, config, env.fault);
    if env.fault.Some? then
      d.(disk := disk, enroll := d.enroll.(result := Some(NotSaved(uid))))
    else
      TagCaptured(d.(config := config, disk := disk), uid, name, actor, env)
  }

  function CaptureTag(d: Door, uid: string, env: Env): Door {
    var disarmed := d.(enroll := NotArmed(d.enroll));
    var tags, actor := d.config.authorized, d.enroll.actor;
    if uid in tags then
      Recorded(disarmed.(enroll := disarmed.enroll.(result := Some(Already(uid, tags[uid])))),
               TagRecord(TAG_SCAN_DUPLICATE, uid, tags[uid], actor, NoDetail), env)
    else
      Enrolled(disarmed, uid, actor, env)
  }

  function HandleNfc(d: Door, uid: string, env: Env): Door {
    var scanned := Published(d, TagScanned(uid));
    if d.enroll.armed then CaptureTag(scanned, uid, env)
    else if uid in d.config.authorized then
      var name := d.config.authorized[uid];
      Recorded(scanned.(lock := Unlocked(d.lock, None, env.now),
                        mqtt := scanned.mqtt + [LockStateIs(UNLOCKED), LastAccess(uid, name, true), Alert(ACCESS_GRANTED, uid, name)]),
               AccessRecord(ACCESS_GRANTED, uid, name, true), env)
    else
      Recorded(scanned.(mqtt := scanned.mqtt + [LastAccess(uid, "Unknown", false), Alert(ACCESS_DENIED, uid, "Unknown")]),
               AccessRecord(ACCESS_DENIED, uid, "Unknown", false), env)
  }

  function HandleButton(d: Door, env: Env): Door {
    Recorded(d.(lock := Unlocked(d.lock, None, env.now),
                mqtt := d.mqtt + [LockStateIs(UNLOCKED), Alert(BUTTON_UNLOCK, "", "")]),
             Entry(BUTTON_UNLOCK).(granted := Some(true)), env)
  }

  function HandleDoorState(d: Door, door: string, state: Reading, env: Env): Door {
    Recorded(Published(d, DoorStateIs(door, state)),
             Entry(DOOR_STATE).(door := Some(door), detail := StateDetail(state)), env)
  }

  function HandleDoorAlert(d: Door, door: string, elapsed: real, env: Env): Door {
    Recorded(Published(d, DoorAlertIs(door, elapsed)),
             Entry(DOOR_OPEN_TOO_LONG).(door := Some(door), detail := ElapsedDetail(elapsed)), env)
  }

  function HandleExpiry(d: Door): Door {
    Published(d.(lock := Locked(d.lock)), LockStateIs(LOCKED))
  }

  // ----- The admin's commands.

  function Arm(d: Door, name: string, actor: string, env: Env): Door {
    var name := Clip(name, 64);
    Recorded(d.(enroll := Enroll(true, env.now + ENROLL_WINDOW_SECONDS, name, actor, None)),
             Entry(ENROLL_ARMED).(actor := Some(actor), name := if name == "" then None else Some(name)), env)
  }

  /** The whole seconds left of an armed window. */
  function Remaining(e: Enroll, now: real): (r: int)
    ensures 0 <= r
  {
    var left := (e.deadline - now).Floor;
    if e.armed && 0 <= left then left else 0
  }

  function WebUnlock(d: Door, actor: string, env: Env): Door {
    Recorded(d.(lock := Unlocked(d.lock, None, env.now),
                mqtt := d.mqtt + [LockStateIs(UNLOCKED), Alert(WEB_UNLOCK, "", actor)]),
             Entry(WEB_UNLOCK).(actor := Some(actor), granted := Some(true)), env)
  }

  function WebLock(d: Door, actor: string, env: Env): Door {
    Recorded(d.(lock := Locked(d.lock), mqtt := d.mqtt + [LockStateIs(LOCKED)]),
             Entry(WEB_LOCK).(actor := Some(actor)), env)
  }

  function SetDuration(d: Door, seconds: Seconds, actor: string, env: Env): (Door, Response) {
    if seconds.NotANumber? then (d, Fail(DurationNotANumber))
    else if seconds.NotFinite? || !(1.0 <= seconds.value <= 60.0) then (d, Fail(DurationOutOfRange))
    else
      var config := d.config.(unlockDuration := seconds.value);
      var disk := Saved(d.disk, config, env.fault);
      if env.fault.Some? then (d.(disk := disk), Fail(CouldNotWriteConfig))
      else
        (Recorded(d.(config := config, disk := disk, lock := d.lock.(defaultDuration := seconds.value)),
                  Entry(SET_UNLOCK_DURATION).(actor := Some(actor),
                                              detail := DurationChange(seconds.value, d.config.unlockDuration)), env),
         Ok(DurationIs(seconds.value)))
  }

  function SetLockPolarity(d: Door, activeLow: Option<bool>, actor: string, env: Env): (Door, Response) {
    if activeLow.None? then (d, Fail(PolarityNotABoolean))
    else
      var low, previous := activeLow.value, d.config.activeLowRelay;
      if low == previous then (d, Ok(LockPolarityIs(low, false)))
      else
        var config := d.config.(activeLowRelay := low);
        var disk := Saved(d.disk, config, env.fault);
        if env.fault.Some? then (d.(disk := disk), Fail(CouldNotWriteConfig))
        else
          (Recorded(d.(config := config, disk := disk, lock := WithRelayPolarity(d.lock, low)),
                    Entry(SET_LOCK_POLARITY).(actor := Some(actor), detail := PolarityChange(low, previous)), env),
           Ok(LockPolarityIs(low, true)))
  }

  /** The position of the first `name`, or the length when there is none. */
  function First(names: seq<string>, name: string): (i: nat)
    ensures i <= |names|
  {
    if names == [] || names[0] == name then 0 else 1 + First(names[1..], name)
  }

  function SensorNames(sensors: seq<Sensor>): seq<string> {
    seq(|sensors|, i requires 0 <= i < |sensors| => sensors[i].name)
  }

  function DoorNames(doors: seq<DoorEntry>): seq<string> {
    seq(|doors|, i requires 0 <= i < |doors| => doors[i].name)
  }

  function WithDoor(c: Config, i: nat, activeLow: bool): Config
    requires i < |c.doors|
  {
    c.(doors := c.doors[i := c.doors[i].(activeLow := Some(activeLow))])
  }

  function DoorPolarityApplied(d: Door, s: nat, door: string, low: bool, previous: bool, actor: string, env: Env): (Door, Response)
    requires s < |d.sensors|
  {
    var sensor := DoorSensor.WithPolarity(d.sensors[s], low, env.now);
    var changed := Published(d.(sensors := d.sensors[s := sensor]), DoorStateIs(door, sensor.state));
    var logged := Recorded(changed, Entry(DOOR_STATE).(door := Some(door), detail := StateDetail(sensor.state)), env);
    (Recorded(logged, Entry(SET_DOOR_POLARITY).(actor := Some(actor), door := Some(door),
                                                detail := PolarityChange(low, previous)), env),
     Ok(DoorPolarityIs(door, low, Some(sensor.state))))
  }

  function SetDoorPolarity(d: Door, door: string, activeLow: Option<bool>, actor: string, env: Env): (Door, Response) {
    if activeLow.None? then (d, Fail(PolarityNotABoolean))
    else
      var s, e := First(SensorNames(d.sensors), door), First(DoorNames(d.config.doors), door);
      if s == |d.sensors| || e == |d.config.doors| then (d, Fail(NoSuchDoor(door)))
      else
        var low, previous := activeLow.value, Polarity(d.config.doors[e].activeLow);
        if low == previous then (d, Ok(DoorPolarityIs(door, low, None)))
        else
          var config := WithDoor(d.config, e, low);
          var disk := Saved(d.disk, config, env.fault);
          if env.fault.Some? then
            (d.(config := WithDoor(d.config, e, previous), disk := disk), Fail(CouldNotWriteConfig))
          else
            DoorPolarityApplied(d.(config := config, disk := disk), s, door, low, previous, actor, env)
  }

  function AddTag(d: Door, rawUid: string, rawName: string, actor: string, env: Env): (Door, Response) {
    var uid, tags := Normalize(rawUid), d.config.authorized;
    var name := NameOr(CleanName(rawName), uid);
    if uid == "" then (d, Fail(UidNotHex))
    else if uid in tags then (d, Fail(UidAssigned(uid, tags[uid])))
    else
      var config := d.config.(authorized := tags[uid := name]);
      var disk := Saved(d.disk, config, env.fault);
      if env.fault.Some? then (d.(disk := disk), Fail(CouldNotWriteConfig))
      else
        (Published(Recorded(d.(config := config, disk := disk), TagRecord(TAG_ADDED, uid, name, actor, NoDetail), env),
                   Alert(TAG_ADDED, uid, name)),
         Ok(TagIs(uid, name)))
  }

  function RemoveTag(d: Door, rawUid: string, actor: string, env: Env): (Door, Response) {
    var uid, tags := Normalize(rawUid), d.config.authorized;
    if uid !in tags then (d, Fail(NoSuchTag))
    else
      var name, config := tags[uid], d.config.(authorized := tags - {uid});
      var disk := Saved(d.disk, config, env.fault);
      if env.fault.Some? then (d.(disk := disk), Fail(CouldNotWriteConfig))
      else
        (Published(Recorded(d.(config := config, disk := disk), TagRecord(TAG_REMOVED, uid, name, actor, NoDetail), env),
                   Alert(TAG_REMOVED, uid, name)),
         Ok(TagIs(uid, name)))
  }

  function RenameTag(d: Door, rawUid: string, rawName: string, actor: string, env: Env): (Door, Response) {
    var uid, name, tags := Normalize(rawUid), CleanName(rawName), d.config.authorized;
    if uid !in tags then (d, Fail(NoSuchTag))
    else if name == "" then (d, Fail(NameEmpty))
    else
      var config := d.config.(authorized := tags[uid := name]);
      var disk := Saved(d.disk, config, env.fault);
      if env.fault.Some? then (d.(disk := disk), Fail(CouldNotWriteConfig))
      else
        (Recorded(d.(config := config, disk := disk),
                  TagRecord(TAG_RENAMED, uid, name, actor, Text("was " + tags[uid])), env),
         Ok(TagIs(uid, name)))
  }

  function DoorPolarities(doors: seq<DoorEntry>): seq<DoorPolarity> {
    seq(|doors|, i requires 0 <= i < |doors| => DoorPolarity(doors[i].name, Polarity(doors[i].activeLow)))
  }

  predicate Saves(command: Command) {
    match command
    case SetUnlockDuration(_) => true
    case SetLockPolarity(_) => true
    case SetDoorPolarity(_, _) => true
    case AddTag(_, _) => true
    case RemoveTag(_) => true
    case RenameTag(_, _) => true
    case _ => false
  }

  function RunCommand(d: Door, command: Command, actor: string, env: Env): (Door, Response) {
    match command
    case ArmEnroll(name) => (Arm(d, name, actor, env), Ok(Armed(ENROLL_WINDOW_SECONDS)))
    case EnrollStatus =>
      (d.(enroll := d.enroll.(result := None)), Ok(EnrollState(d.enroll.armed, Remaining(d.enroll, env.now), d.enroll.result)))
    case CancelEnroll => (d.(enroll := NotArmed(d.enroll).(result := None)), Ok(Disarmed))
    case Status =>
      (d, Ok(ServiceStatus(d.lock.state, d.config.unlockDuration, DoorNames(d.config.doors), |d.config.authorized|)))
    case HardwareConfig => (d, Ok(Hardware(d.config.activeLowRelay, DoorPolarities(d.config.doors))))
    case ListTags => (d, Ok(Tags(d.config.authorized)))
    case UnlockDoor => (WebUnlock(d, actor, env), Ok(LockIs(UNLOCKED)))
    case LockDoor => (WebLock(d, actor, env), Ok(LockIs(LOCKED)))
    case SetUnlockDuration(seconds) => SetDuration(d, seconds, actor, env)
    case SetLockPolarity(activeLow) => SetLockPolarity(d, activeLow, actor, env)
    case SetDoorPolarity(door, activeLow) => SetDoorPolarity(d, door, activeLow, actor, env)
    case AddTag(uid, name) => AddTag(d, uid, name, actor, env)
    case RemoveTag(uid) => RemoveTag(d, uid, actor, env)
    case RenameTag(uid, name) => RenameTag(d, uid, name, actor, env)
    case LoginEvent(kind, detail) =>
      (Recorded(d, Entry(kind).(actor := Some(actor), detail := Text(Clip(detail, 200))), env), Ok(Logged))
    case UnknownCommand(cmd) => (d, Fail(NoSuchCommand(cmd)))
  }

  /** A request that is not an object raises before its handler can answer: the loop swallows the
      exception and nobody replies. */
  function HandleWebCommand(d: Door, request: Request, env: Env): (Door, Option<Response>) {
    match request
    case NotAnObject => (d, None)
    case Object(command, actor) =>
      var (after, response) := RunCommand(d, command, Clip(actor, 64), env);
      (after, Some(response))
  }

  function Dispatch(d: Door, e: Event, env: Env): (Door, Option<Response>) {
    match e
    case NfcUid(uid) => (HandleNfc(d, uid, env), None)
    case ButtonPress => (HandleButton(d, env), None)
    case DoorState(door, state) => (HandleDoorState(d, door, state, env), None)
    case DoorAlert(door, elapsed) => (HandleDoorAlert(d, door, elapsed, env), None)
    case WebCommand(request, _) => HandleWebCommand(d, request, env)
    case UnlockTimerExpired(_) => (HandleExpiry(d), None)
  }

  /** The head of every turn of the event loop: a forgotten arm expires. */
  function ExpireEnroll(d: Door, now: real): Door {
    if d.enroll.armed && now > d.enroll.deadline then
      d.(enroll := NotArmed(d.enroll).(result := Some(TimedOut)))
    else d
  }

  /** One turn of the event loop: its head, and the event that arrives within the queue wait, if any. */
  datatype Turn = Turn(head: real, event: Option<Event>, env: Env)

  function LoopTurn(d: Door, t: Turn): Door {
    var awake := ExpireEnroll(d, t.head);
    if t.event.Some? then Dispatch(awake, t.event.value, t.env).0 else awake
  }

  function LoopRun(d: Door, turns: seq<Turn>): Door {
    if turns == [] then d else LoopTurn(LoopRun(d, turns[..|turns| - 1]), turns[|turns| - 1])
  }
}
