/** What each event does to the world and what each command answers: when it succeeds, what it changes,
    what the file holds afterwards, and which record and which messages it leaves. */
module Effects {
  import opened Basics
  import opened Events
  import opened ConfigFile
  import opened LockController
  import opened Uid
  import opened Dispatcher
  import DoorSensor

  /** `records` go to the history when it works, and `messages` are published. */
  predicate Leaves(d: Door, after: Door, records: seq<Record>, messages: seq<Message>, env: Env) {
    && after.storeUp == d.storeUp && after.mqtt == d.mqtt + messages
    && after.log == d.log + (if d.storeUp && !env.logFails then records else [])
  }

  /** Nothing but the configuration, its file, the history and the publications differs. */
  predicate OnlyConfig(d: Door, after: Door) {
    after.lock == d.lock && after.sensors == d.sensors && after.enroll == d.enroll
  }

  /** Memory and file hold these tags, and every other setting is as before. */
  predicate TagsBecome(d: Door, after: Door, tags: map<string, string>) {
    after.config == d.config.(authorized := tags) && Holds(after.disk, after.config)
  }

  /** Memory and file are as before; a failed save may leave its temporary file behind. */
  predicate NothingSaved(d: Door, after: Door) {
    after.config == d.config && after.disk.main == d.disk.main
  }

  /** The name a tag gets: the first 64 characters of what was given, without the whitespace around it,
      or one made from the last four digits of its UID. */
  predicate NamedAs(given: string, uid: string, name: string) {
    if Strip(given) == "" then name == "Tag " + (if |uid| < 4 then uid else uid[|uid| - 4..])
    else name <= Strip(given) && |name| == Min(64, |Strip(given)|)
  }

  // ----- The commands that save the configuration.

  /** A tag is added if and only if its UID is hex and new and the save works. */
  lemma AddTagEffect(d: Door, raw: string, given: string, actor: string, env: Env)
    ensures var (after, response) := RunCommand(d, Command.AddTag(raw, given), actor, env);
            var uid, tags := Normalize(raw), d.config.authorized;
            && (response.Ok? <==> uid != "" && uid !in tags && env.fault.None?)
            && OnlyConfig(d, after)
            && (match response
                case Ok(TagIs(u, name)) =>
                  && u == uid && NamedAs(given, uid, name) && TagsBecome(d, after, tags[uid := name])
                  && Leaves(d, after, [Record(TAG_ADDED, Some(uid), Some(name), None, None, Some(actor), NoDetail)],
                            [Alert(TAG_ADDED, uid, name)], env)
                case Ok(_) => false
                case Fail(failure) =>
                  && NothingSaved(d, after) && Leaves(d, after, [], [], env)
                  && failure == (if uid == "" then UidNotHex else if uid in tags then UidAssigned(uid, tags[uid]) else CouldNotWriteConfig))
  {
    var uid := Normalize(raw);
    SaveIsAtomic(d.disk, d.config.(authorized := d.config.authorized[uid := NameOr(CleanName(given), uid)]), env.fault);
  }

  /** A tag is removed if and only if it is stored and the save works. */
  lemma RemoveTagEffect(d: Door, raw: string, actor: string, env: Env)
    ensures var (after, response) := RunCommand(d, Command.RemoveTag(raw), actor, env);
            var uid, tags := Normalize(raw), d.config.authorized;
            && (response.Ok? <==> uid in tags && env.fault.None?)
            && OnlyConfig(d, after)
            && (if response.Ok? then
                  && response == Ok(TagIs(uid, tags[uid]))
                  && TagsBecome(d, after, map u | u in tags && u != uid :: tags[u])
                  && Leaves(d, after, [Record(TAG_REMOVED, Some(uid), Some(tags[uid]), None, None, Some(actor), NoDetail)],
                            [Alert(TAG_REMOVED, uid, tags[uid])], env)
                else
                  && NothingSaved(d, after) && Leaves(d, after, [], [], env)
                  && response == Fail(if uid in tags then CouldNotWriteConfig else NoSuchTag))
  {
    var uid, tags := Normalize(raw), d.config.authorized;
    SaveIsAtomic(d.disk, d.config.(authorized := tags - {uid}), env.fault);
    assert tags - {uid} == map u | u in tags && u != uid :: tags[u];
  }

  /** A tag is renamed if and only if it is stored, the new name is not blank and the save works. */
  lemma RenameTagEffect(d: Door, raw: string, given: string, actor: string, env: Env)
    ensures var (after, response) := RunCommand(d, Command.RenameTag(raw, given), actor, env);
            var uid, tags := Normalize(raw), d.config.authorized;
            && (response.Ok? <==> uid in tags && Strip(given) != "" && env.fault.None?)
            && OnlyConfig(d, after)
            && (match response
                case Ok(TagIs(u, name)) =>
                  && u == uid && NamedAs(given, uid, name) && TagsBecome(d, after, tags[uid := name])
                  && Leaves(d, after, [Record(TAG_RENAMED, Some(uid), Some(name), None, None, Some(actor), Text("was " + tags[uid]))], [], env)
                case Ok(_) => false
                case Fail(failure) =>
                  && NothingSaved(d, after) && Leaves(d, after, [], [], env)
                  && failure == (if uid !in tags then NoSuchTag else if Strip(given) == "" then NameEmpty else CouldNotWriteConfig))
  {
    SaveIsAtomic(d.disk, d.config.(authorized := d.config.authorized[Normalize(raw) := CleanName(given)]), env.fault);
  }

  /** The duration changes if and only if it is a number of seconds from 1 to 60 and the save works; then
      memory, file and lock have the requested value. */
  lemma SetDurationEffect(d: Door, seconds: Seconds, actor: string, env: Env)
    ensures var (after, response) := RunCommand(d, SetUnlockDuration(seconds), actor, env);
            && (response.Ok? <==> seconds.Finite? && 1.0 <= seconds.value <= 60.0 && env.fault.None?)
            && after.sensors == d.sensors && after.enroll == d.enroll
            && (if response.Ok? then
                  && response == Ok(DurationIs(seconds.value))
                  && after.config == d.config.(unlockDuration := seconds.value) && Holds(after.disk, after.config)
                  && after.lock == d.lock.(defaultDuration := seconds.value)
                  && Leaves(d, after, [Record(SET_UNLOCK_DURATION, None, None, None, None, Some(actor),
                                              DurationChange(seconds.value, d.config.unlockDuration))], [], env)
                else
                  && after.lock == d.lock && NothingSaved(d, after) && Leaves(d, after, [], [], env)
                  && response == Fail(if seconds.NotANumber? then DurationNotANumber
                                      else if seconds.NotFinite? || seconds.value < 1.0 || 60.0 < seconds.value then DurationOutOfRange
                                      else CouldNotWriteConfig))
  {
    if seconds.Finite? {
      SaveIsAtomic(d.disk, d.config.(unlockDuration := seconds.value), env.fault);
    }
  }

  /** The relay's polarity is what was requested if and only if a boolean was, and it was so already or the
      save works; only the levels driven differ. */
  lemma SetLockPolarityEffect(d: Door, activeLow: Option<bool>, actor: string, env: Env)
    ensures var (after, response) := RunCommand(d, Command.SetLockPolarity(activeLow), actor, env);
            && (response.Ok? <==> activeLow.Some? && (activeLow.value == d.config.activeLowRelay || env.fault.None?))
            && after.sensors == d.sensors && after.enroll == d.enroll
            && (if response.Ok? && activeLow.value != d.config.activeLowRelay then
                  var low := activeLow.value;
                  && response == Ok(LockPolarityIs(low, true))
                  && after.config == d.config.(activeLowRelay := low) && Holds(after.disk, after.config)
                  && after.lock == d.lock.(activeLow := low, relay := after.lock.relay, led := after.lock.led) && Encoded(after.lock)
                  && Leaves(d, after, [Record(SET_LOCK_POLARITY, None, None, None, None, Some(actor),
                                              PolarityChange(low, !low))], [], env)
                else
                  && after.lock == d.lock && NothingSaved(d, after) && Leaves(d, after, [], [], env)
                  && response == (if activeLow.None? then Fail(PolarityNotABoolean)
                                  else if activeLow.value == d.config.activeLowRelay then Ok(LockPolarityIs(activeLow.value, false))
                                  else Fail(CouldNotWriteConfig)))
  {
    if activeLow.Some? {
      SaveIsAtomic(d.disk, d.config.(activeLowRelay := activeLow.value), env.fault);
    }
  }

  predicate IsFirst(names: seq<string>, name: string, i: nat) {
    i < |names| && names[i] == name && forall j :: 0 <= j < i ==> names[j] != name
  }

  lemma {:induction false} FirstIsFirst(names: seq<string>, name: string)
    ensures if name in names then IsFirst(names, name, First(names, name)) else First(names, name) == |names|
  {
    if names != [] && names[0] != name {
      FirstIsFirst(names[1..], name);
      assert names == [names[0]] + names[1..];
      assert forall j :: 0 < j < |names| ==> names[j] == names[1..][j - 1];
    }
  }

  /** `after` is `sensor` with another polarity: the pin is read again, and only a state that changes
      begins or ends an episode. */
  predicate Reread(sensor: Sensor, after: Sensor, low: bool, now: real) {
    && after.name == sensor.name && after.threshold == sensor.threshold && after.pin == sensor.pin && after.activeLow == low
    && (after.state == OPEN <==> (sensor.pin == LOW <==> low)) && after.state != UNKNOWN
    && (if after.state == sensor.state then after.openSince == sensor.openSince && after.alertSent == sensor.alertSent
        else after.openSince == (if after.state == OPEN then Some(now) else None) && !after.alertSent)
  }

  lemma WithPolarityRereads(sensor: Sensor, low: bool, now: real)
    ensures Reread(sensor, DoorSensor.WithPolarity(sensor, low, now), low, now)
  {
  }

  /** Entry `e` spells the polarity `low` out, sensor `s` reads its pin under it, and nothing else changes. */
  predicate DoorTurned(d: Door, after: Door, s: nat, e: nat, low: bool, now: real)
    requires s < |d.sensors| && e < |d.config.doors|
  {
    && after.lock == d.lock && after.enroll == d.enroll
    && after.config == d.config.(doors := d.config.doors[e := DoorEntry(d.config.doors[e].name, Some(low))])
    && Holds(after.disk, after.config)
    && |after.sensors| == |d.sensors| && Reread(d.sensors[s], after.sensors[s], low, now)
    && forall i :: 0 <= i < |d.sensors| && i != s ==> after.sensors[i] == d.sensors[i]
  }

  lemma DoorPolarityChanges(d: Door, door: string, low: bool, actor: string, env: Env, s: nat, e: nat)
    requires s == First(SensorNames(d.sensors), door) < |d.sensors| && e == First(DoorNames(d.config.doors), door) < |d.config.doors|
    requires d.config.doors[e].name == door && low != Polarity(d.config.doors[e].activeLow) && env.fault.None?
    ensures var (after, response) := Dispatcher.SetDoorPolarity(d, door, Some(low), actor, env);
            var state := after.sensors[s].state;
            && DoorTurned(d, after, s, e, low, env.now) && response == Ok(DoorPolarityIs(door, low, Some(state)))
            && Leaves(d, after, [Record(DOOR_STATE, None, None, None, Some(door), None, StateDetail(state)),
                                 Record(SET_DOOR_POLARITY, None, None, None, Some(door), Some(actor), PolarityChange(low, !low))],
                      [DoorStateIs(door, state)], env)
  {
    SaveIsAtomic(d.disk, WithDoor(d.config, e, low), None);
    WithPolarityRereads(d.sensors[s], low, env.now);
  }

  lemma DoorPolarityStays(d: Door, door: string, activeLow: Option<bool>, actor: string, env: Env, s: nat, e: nat)
    requires s == First(SensorNames(d.sensors), door) < |d.sensors| && e == First(DoorNames(d.config.doors), door) < |d.config.doors|
    requires activeLow.None? || activeLow.value == Polarity(d.config.doors[e].activeLow) || env.fault.Some?
    ensures var (after, response) := Dispatcher.SetDoorPolarity(d, door, activeLow, actor, env);
            && OnlyConfig(d, after) && SameSettings(after.config, d.config) && after.disk.main == d.disk.main
            && Leaves(d, after, [], [], env)
            && response == (if activeLow.None? then Fail(PolarityNotABoolean)
                            else if activeLow.value == Polarity(d.config.doors[e].activeLow) then Ok(DoorPolarityIs(door, activeLow.value, None))
                            else Fail(CouldNotWriteConfig))
  {
    if activeLow.Some? {
      SaveIsAtomic(d.disk, WithDoor(d.config, e, activeLow.value), env.fault);
    }
  }

  /** A door's polarity is what was requested if and only if a boolean was, the door has a sensor and an
      entry, and it was so already or the save works. */
  lemma SetDoorPolarityEffect(d: Door, door: string, activeLow: Option<bool>, actor: string, env: Env, s: nat, e: nat)
    requires IsFirst(SensorNames(d.sensors), door, s) && IsFirst(DoorNames(d.config.doors), door, e)
    ensures var (after, response) := RunCommand(d, Command.SetDoorPolarity(door, activeLow), actor, env);
            var previous := Polarity(d.config.doors[e].activeLow);
            && (response.Ok? <==> activeLow.Some? && (activeLow.value == previous || env.fault.None?))
            && (if response.Ok? && activeLow.value != previous then
                  var low, state := activeLow.value, after.sensors[s].state;
                  && DoorTurned(d, after, s, e, low, env.now) && response == Ok(DoorPolarityIs(door, low, Some(state)))
                  && Leaves(d, after, [Record(DOOR_STATE, None, None, None, Some(door), None, StateDetail(state)),
                                       Record(SET_DOOR_POLARITY, None, None, None, Some(door), Some(actor), PolarityChange(low, !low))],
                            [DoorStateIs(door, state)], env)
                else
                  && OnlyConfig(d, after) && SameSettings(after.config, d.config) && after.disk.main == d.disk.main
                  && Leaves(d, after, [], [], env)
                  && response == (if activeLow.None? then Fail(PolarityNotABoolean)
                                  else if activeLow.value == previous then Ok(DoorPolarityIs(door, activeLow.value, None))
                                  else Fail(CouldNotWriteConfig)))
  {
    FirstIsFirst(SensorNames(d.sensors), door);
    FirstIsFirst(DoorNames(d.config.doors), door);
    if activeLow.Some? && activeLow.value != Polarity(d.config.doors[e].activeLow) && env.fault.None? {
      DoorPolarityChanges(d, door, activeLow.value, actor, env, s, e);
    } else {
      DoorPolarityStays(d, door, activeLow, actor, env, s, e);
    }
  }

  lemma UnknownDoorEffect(d: Door, door: string, activeLow: Option<bool>, actor: string, env: Env)
    requires door !in SensorNames(d.sensors) || door !in DoorNames(d.config.doors)
    ensures RunCommand(d, Command.SetDoorPolarity(door, activeLow), actor, env)
         == (d, Fail(if activeLow.None? then PolarityNotABoolean else NoSuchDoor(door)))
  {
    FirstIsFirst(SensorNames(d.sensors), door);
    FirstIsFirst(DoorNames(d.config.doors), door);
  }

  // ----- The other commands.

  /** Lock and unlock always succeed; the record of an unlock says that it granted access. */
  lemma LockCommandEffect(d: Door, actor: string, env: Env)
    ensures var (after, response) := RunCommand(d, UnlockDoor, actor, env);
            && response == Ok(LockIs(after.lock.state)) && after.lock.state == UNLOCKED
            && after == d.(lock := after.lock, log := after.log, mqtt := after.mqtt)
            && Leaves(d, after, [Record(WEB_UNLOCK, None, None, Some(true), None, Some(actor), NoDetail)],
                      [LockStateIs(UNLOCKED), Alert(WEB_UNLOCK, "", actor)], env)
    ensures var (after, response) := RunCommand(d, LockDoor, actor, env);
            && response == Ok(LockIs(after.lock.state)) && after.lock.state == LOCKED
            && after == d.(lock := after.lock, log := after.log, mqtt := after.mqtt)
            && Leaves(d, after, [Record(WEB_LOCK, None, None, None, None, Some(actor), NoDetail)], [LockStateIs(LOCKED)], env)
  {
  }

  /** Arming forgets the last outcome and takes the first 64 characters of the name; cancelling forgets
      both; a poll hands over what is stored and the whole seconds left. */
  lemma EnrollCommandEffect(d: Door, name: string, actor: string, env: Env)
    ensures var (after, response) := RunCommand(d, ArmEnroll(name), actor, env);
            var kept := after.enroll.name;
            && response == Ok(Armed(60.0)) && kept <= name && |kept| == Min(64, |name|)
            && after.enroll == Enroll(true, env.now + 60.0, kept, actor, None)
            && after == d.(enroll := after.enroll, log := after.log)
            && Leaves(d, after, [Record(ENROLL_ARMED, None, if name == "" then None else Some(kept), None, None, Some(actor), NoDetail)], [], env)
    ensures var (after, response) := RunCommand(d, CancelEnroll, actor, env);
            response == Ok(Disarmed) && after == d.(enroll := d.enroll.(armed := false, deadline := 0.0, result := None))
    ensures var (after, response) := RunCommand(d, EnrollStatus, actor, env);
            && after == d.(enroll := d.enroll.(result := None))
            && response.Ok? && response.result.EnrollState?
            && response.result.armed == d.enroll.armed && response.result.capture == d.enroll.result
            && var left := d.enroll.deadline - env.now;
               if d.enroll.armed && left >= 0.0 then response.result.remaining as real <= left < response.result.remaining as real + 1.0
               else response.result.remaining == 0
  {
  }

  /** Queries answer from the state and change nothing. */
  lemma QueryEffect(d: Door, actor: string, env: Env)
    ensures var (after, response) := RunCommand(d, Status, actor, env);
            && after == d && response.Ok? && response.result.ServiceStatus?
            && response.result.lock == d.lock.state && response.result.duration == d.config.unlockDuration
            && response.result.tagCount == |d.config.authorized.Keys| && |response.result.doors| == |d.config.doors|
            && forall i :: 0 <= i < |d.config.doors| ==> response.result.doors[i] == d.config.doors[i].name
    ensures var (after, response) := RunCommand(d, HardwareConfig, actor, env);
            && after == d && response.Ok? && response.result.Hardware?
            && response.result.lockActiveLow == d.config.activeLowRelay && |response.result.polarities| == |d.config.doors|
            && forall i :: 0 <= i < |d.config.doors| ==>
                 && response.result.polarities[i].door == d.config.doors[i].name
                 && response.result.polarities[i].activeLow == (d.config.doors[i].activeLow != Some(false))
    ensures RunCommand(d, ListTags, actor, env) == (d, Ok(Tags(d.config.authorized)))
  {
  }

  /** A reported login is recorded without a UID, and an unknown command is refused. */
  lemma LoginEventEffect(d: Door, kind: Kind, detail: string, cmd: string, actor: string, env: Env)
    ensures var (after, response) := RunCommand(d, LoginEvent(kind, detail), actor, env);
            && response == Ok(Logged) && after == d.(log := after.log)
            && exists kept :: kept <= detail && |kept| == Min(200, |detail|)
                 && Leaves(d, after, [Record(kind, None, None, None, None, Some(actor), Text(kept))], [], env)
    ensures RunCommand(d, UnknownCommand(cmd), actor, env) == (d, Fail(NoSuchCommand(cmd)))
  {
    assert Clip(detail, 200) <= detail;
  }

  /** A request runs its command under the first 64 characters of its actor and is answered with the
      result, and one that is not an object does nothing. */
  lemma RequestEffect(d: Door, request: Request, conn: nat, env: Env) returns (actor: string)
    ensures match request
            case NotAnObject => Dispatch(d, WebCommand(request, conn), env) == (d, None)
            case Object(command, given) =>
              && actor <= given && |actor| == Min(64, |given|)
              && Dispatch(d, WebCommand(request, conn), env)
              == (RunCommand(d, command, actor, env).0, Some(RunCommand(d, command, actor, env).1))
  {
    actor := if request.Object? then Clip(request.actor, 64) else "";
  }

  // ----- The events of the other producers.

  /** A scan with the reader not armed unlocks if and only if its tag is stored; either way it is published
      and recorded. */
  lemma ScanEffect(d: Door, uid: string, env: Env)
    requires !d.enroll.armed
    ensures var after, tags := Dispatch(d, NfcUid(uid), env).0, d.config.authorized;
            && after == d.(lock := after.lock, log := after.log, mqtt := after.mqtt)
            && (if uid in tags then
                  && after.lock.state == UNLOCKED && after.lock.nextTimer == d.lock.nextTimer + 1
                  && Leaves(d, after, [Record(ACCESS_GRANTED, Some(uid), Some(tags[uid]), Some(true), None, None, NoDetail)],
                            [TagScanned(uid), LockStateIs(UNLOCKED), LastAccess(uid, tags[uid], true), Alert(ACCESS_GRANTED, uid, tags[uid])], env)
                else
                  && after.lock == d.lock
                  && Leaves(d, after, [Record(ACCESS_DENIED, Some(uid), Some("Unknown"), Some(false), None, None, NoDetail)],
                            [TagScanned(uid), LastAccess(uid, "Unknown", false), Alert(ACCESS_DENIED, uid, "Unknown")], env))
  {
  }

  /** A scan with the reader armed disarms it, never touches the lock, and ends in one of three outcomes:
      the tag was stored already, it is stored now under the name of the arm, or the save failed. */
  lemma CaptureEffect(d: Door, uid: string, env: Env)
    requires d.enroll.armed
    ensures var after, tags := Dispatch(d, NfcUid(uid), env).0, d.config.authorized;
            && OnlyConfig(d, after.(enroll := d.enroll))
            && after.enroll == d.enroll.(armed := false, deadline := 0.0, result := after.enroll.result)
            && (match after.enroll.result
                case Some(Already(u, name)) =>
                  && u == uid && uid in tags && name == tags[uid] && after.config == d.config && after.disk == d.disk
                  && Leaves(d, after, [Record(TAG_SCAN_DUPLICATE, Some(uid), Some(name), None, None, Some(d.enroll.actor), NoDetail)],
                            [TagScanned(uid)], env)
                case Some(NotSaved(u)) =>
                  && u == uid && uid !in tags && env.fault.Some? && NothingSaved(d, after)
                  && Leaves(d, after, [], [TagScanned(uid)], env)
                case Some(Added(u, name)) =>
                  && u == uid && uid !in tags && env.fault.None? && NamedAs(d.enroll.name, uid, name)
                  && TagsBecome(d, after, tags[uid := name])
                  && Leaves(d, after, [Record(TAG_ADDED, Some(uid), Some(name), None, None, Some(d.enroll.actor), Text("scanned at door reader"))],
                            [TagScanned(uid), Alert(TAG_ADDED, uid, name)], env)
                case _ => false)
  {
    if uid !in d.config.authorized {
      SaveIsAtomic(d.disk, d.config.(authorized := d.config.authorized[uid := NameOr(CleanName(d.enroll.name), uid)]), env.fault);
    }
  }

  /** The button unlocks; a door state or alert is published and recorded as it was posted; an expiry
      locks without a record. */
  lemma DeviceEffect(d: Door, door: string, state: Reading, elapsed: real, timer: nat, env: Env)
    ensures var after := Dispatch(d, ButtonPress, env).0;
            && after == d.(lock := after.lock, log := after.log, mqtt := after.mqtt)
            && after.lock.state == UNLOCKED && after.lock.nextTimer == d.lock.nextTimer + 1
            && Leaves(d, after, [Record(BUTTON_UNLOCK, None, None, Some(true), None, None, NoDetail)],
                      [LockStateIs(UNLOCKED), Alert(BUTTON_UNLOCK, "", "")], env)
    ensures var after := Dispatch(d, DoorState(door, state), env).0;
            && after == d.(log := after.log, mqtt := after.mqtt)
            && Leaves(d, after, [Record(DOOR_STATE, None, None, None, Some(door), None, StateDetail(state))], [DoorStateIs(door, state)], env)
    ensures var after := Dispatch(d, DoorAlert(door, elapsed), env).0;
            && after == d.(log := after.log, mqtt := after.mqtt)
            && Leaves(d, after, [Record(DOOR_OPEN_TOO_LONG, None, None, None, Some(door), None, ElapsedDetail(elapsed))],
                      [DoorAlertIs(door, elapsed)], env)
    ensures var after := Dispatch(d, UnlockTimerExpired(timer), env).0;
            && after == d.(lock := after.lock, mqtt := after.mqtt)
            && after.lock.state == LOCKED && Leaves(d, after, [], [LockStateIs(LOCKED)], env)
  {
  }
}
