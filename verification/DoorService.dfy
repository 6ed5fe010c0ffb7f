/** main.py's dispatcher as it runs: handlers that change the configuration, the run-time state and
    the controllers in place, roll back when a save fails, and together compute `Dispatch`. */
module DoorService {
  import opened Basics
  import opened Events
  import opened ConfigFile
  import opened LockController
  import opened Uid
  import opened Dispatcher
  import DoorSensor
  import EventStore
  import Timestamps

  ghost predicate Distinct(sensors: seq<DoorSensor.DoorSensor>) {
    forall i, j :: 0 <= i < j < |sensors| ==> sensors[i] != sensors[j]
  }

  function States(sensors: seq<DoorSensor.DoorSensor>): (r: seq<Sensor>)
    reads sensors
    ensures |r| == |sensors| && forall i :: 0 <= i < |r| ==> r[i] == sensors[i].State()
  {
    if sensors == [] then [] else [sensors[0].State()] + States(sensors[1..])
  }

  class DoorService {
    const lock: LockController
    const file: ConfigFile
    const store: EventStore.EventStore
    const sensors: seq<DoorSensor.DoorSensor>
    var config: Config
    var armed: bool
    var deadline: real
    var enrollName: string
    var enrollActor: string
    var result: Option<Capture>
    var mqtt: seq<Message>
    // Inputs of the turn in progress: the wall clock, and which writes fail.
    var env: Env
    var clock: Timestamps.DateTime
    var commitFails: bool

    ghost predicate Valid()
      reads this, store
    {
      store.Valid() && Distinct(sensors) && Timestamps.Valid(clock)
    }

    ghost function State(): Door
      reads this, lock, file, store, sensors
    {
      Door(lock.State(), States(sensors), config, file.State(),
           Enroll(armed, deadline, enrollName, enrollActor, result), store.connected, store.inserted, mqtt)
    }

    constructor (lock: LockController, file: ConfigFile, store: EventStore.EventStore,
                 sensors: seq<DoorSensor.DoorSensor>, config: Config, clock: Timestamps.DateTime)
      requires store.Valid() && Distinct(sensors) && Timestamps.Valid(clock)
      ensures Valid() && this.lock == lock && this.file == file && this.store == store && this.sensors == sensors
      ensures State() == Door(lock.State(), States(sensors), config, file.State(),
                              Enroll(false, 0.0, "", "", None), store.connected, store.inserted, [])
    {
      this.lock, this.file, this.store, this.sensors, this.config := lock, file, store, sensors, config;
      armed, deadline, enrollName, enrollActor, result, mqtt := false, 0.0, "", "", None, [];
      this.clock, env, commitFails := clock, Env(0.0, None, false), false;
    }

    method Publish(m: Message)
      requires Valid()
      modifies this`mqtt
      ensures Valid() && State() == Published(old(State()), m)
    {
      mqtt := mqtt + [m];
    }

    method Log(rec: Record)
      requires Valid()
      modifies store
      ensures Valid() && State() == Recorded(old(State()), rec, env)
    {
      store.Log(rec, clock, env.logFails, commitFails);
    }

    /** Saves the configuration in memory, reporting whether that worked. */
    method Persist() returns (ok: bool)
      requires Valid()
      modifies file
      ensures Valid() && State() == old(State()).(disk := Saved(old(file.State()), config, env.fault))
      ensures ok <==> env.fault.None?
    {
      ok := file.Save(config, env.fault);
    }

    method DisarmEnroll()
      requires Valid()
      modifies this`armed, this`deadline
      ensures Valid() && State() == old(State()).(enroll := NotArmed(old(State()).enroll))
    {
      armed := false;
      deadline := 0.0;
    }

    method CaptureTag(uid: string)
      requires Valid()
      modifies this, file, store
      ensures Valid() && env == old(env) && State() == Dispatcher.CaptureTag(old(State()), uid, env)
    {
      var actor := enrollActor;
      DisarmEnroll();
      if uid in config.authorized {
        result := Some(Already(uid, config.authorized[uid]));
        Log(TagRecord(TAG_SCAN_DUPLICATE, uid, config.authorized[uid], actor, NoDetail));
        return;
      }
      EnrollTag(uid, actor);
    }

    /** The scan of a tag that is not enrolled yet, once the reader is disarmed. */
    method EnrollTag(uid: string, actor: string)
      requires Valid() && uid !in config.authorized
      modifies this`config, this`result, this`mqtt, file, store
      ensures Valid() && State() == Enrolled(old(State()), uid, actor, env)
    {
      var name := CleanName(enrollName);
      if name == "" {
        name := TagName(uid);
      }
      var ok := StoreTag(uid, name);
      if !ok {
        result := Some(NotSaved(uid));
        return;
      }
      Captured(uid, name, actor);
    }

    /** Adds a tag and saves, taking the tag out again when saving fails. */
    method StoreTag(uid: string, name: string) returns (ok: bool)
      requires Valid() && uid !in config.authorized
      modifies this`config, file
      ensures Valid() && (ok <==> env.fault.None?)
      ensures var added := old(config).(authorized := old(config).authorized[uid := name]);
              State() == old(State()).(config := if ok then added else old(config),
                                       disk := Saved(old(file.State()), added, env.fault))
    {
      ghost var before := config.authorized;
      config := config.(authorized := config.authorized[uid := name]);
      ok := Persist();
      if !ok {
        config := config.(authorized := config.authorized - {uid});
        assert config.authorized == before;
      }
    }

    method Captured(uid: string, name: string, actor: string)
      requires Valid()
      modifies this`result, this`mqtt, store
      ensures Valid()
      ensures State() == TagCaptured(old(State()), uid, name, actor, env)
    {
      result := Some(Added(uid, name));
      Log(TagRecord(TAG_ADDED, uid, name, actor, Text("scanned at door reader")));
      Publish(Alert(TAG_ADDED, uid, name));
    }

    method HandleNfc(uid: string)
      requires Valid()
      modifies this, lock, file, store
      ensures Valid() && env == old(env) && State() == Dispatcher.HandleNfc(old(State()), uid, env)
    {
      Publish(TagScanned(uid));
      if armed {
        CaptureTag(uid);
        return;
      }
      if uid in config.authorized {
        var name := config.authorized[uid];
        lock.Unlock(None, env.now);
        mqtt := mqtt + [LockStateIs(UNLOCKED), LastAccess(uid, name, true), Alert(ACCESS_GRANTED, uid, name)];
        assert State() == old(State()).(lock := Unlocked(old(State()).lock, None, env.now), mqtt := mqtt);
        Log(AccessRecord(ACCESS_GRANTED, uid, name, true));
      } else {
        mqtt := mqtt + [LastAccess(uid, "Unknown", false), Alert(ACCESS_DENIED, uid, "Unknown")];
        Log(AccessRecord(ACCESS_DENIED, uid, "Unknown", false));
      }
    }

    method HandleButton()
      requires Valid()
      modifies this`mqtt, lock, store
      ensures Valid() && State() == Dispatcher.HandleButton(old(State()), env)
    {
      lock.Unlock(None, env.now);
      mqtt := mqtt + [LockStateIs(UNLOCKED), Alert(BUTTON_UNLOCK, "", "")];
      Log(Entry(BUTTON_UNLOCK).(granted := Some(true)));
    }

    method ArmEnroll(name: string, actor: string)
      requires Valid()
      modifies this`armed, this`deadline, this`enrollName, this`enrollActor, this`result, store
      ensures Valid() && State() == Arm(old(State()), name, actor, env)
    {
      enrollName := Clip(name, 64);
      enrollActor := actor;
      result := None;
      deadline := env.now + ENROLL_WINDOW_SECONDS;
      armed := true;
      assert State() == old(State()).(enroll := Enroll(true, env.now + ENROLL_WINDOW_SECONDS, Clip(name, 64), actor, None));
      Log(Entry(ENROLL_ARMED).(actor := Some(actor), name := if enrollName == "" then None else Some(enrollName)));
    }

    method SetUnlockDuration(seconds: Seconds, actor: string) returns (r: Response)
      requires Valid()
      modifies this, lock, file, store
      ensures Valid() && env == old(env) && (State(), r) == SetDuration(old(State()), seconds, actor, env)
    {
      if seconds.NotANumber? {
        return Fail(DurationNotANumber);
      }
      if seconds.NotFinite? || !(1.0 <= seconds.value <= 60.0) {
        return Fail(DurationOutOfRange);
      }
      var previous := config.unlockDuration;
      config := config.(unlockDuration := seconds.value);
      var ok := Persist();
      if !ok {
        config := config.(unlockDuration := previous);
        return Fail(CouldNotWriteConfig);
      }
      lock.SetDefaultDuration(seconds.value);
      Log(Entry(SET_UNLOCK_DURATION).(actor := Some(actor), detail := DurationChange(seconds.value, previous)));
      return Ok(DurationIs(seconds.value));
    }

    method SetLockPolarity(activeLow: Option<bool>, actor: string) returns (r: Response)
      requires Valid()
      modifies this, lock, file, store
      ensures Valid() && env == old(env) && (State(), r) == Dispatcher.SetLockPolarity(old(State()), activeLow, actor, env)
    {
      if activeLow.None? {
        return Fail(PolarityNotABoolean);
      }
      var low, previous := activeLow.value, config.activeLowRelay;
      if low == previous {
        return Ok(LockPolarityIs(low, false));
      }
      config := config.(activeLowRelay := low);
      var ok := Persist();
      if !ok {
        config := config.(activeLowRelay := previous);
        return Fail(CouldNotWriteConfig);
      }
      lock.SetActiveLow(low);
      Log(Entry(SET_LOCK_POLARITY).(actor := Some(actor), detail := PolarityChange(low, previous)));
      return Ok(LockPolarityIs(low, true));
    }

    method FindSensor(name: string) returns (i: nat)
      ensures i == First(SensorNames(States(sensors)), name)
    {
      ghost var names := SensorNames(States(sensors));
      i := 0;
      while i < |sensors| && sensors[i].name != name
        invariant i <= |sensors|
        invariant First(names, name) == i + First(names[i..], name)
      {
        assert names[i..][1..] == names[i + 1..];
        i := i + 1;
      }
    }

    method FindEntry(name: string) returns (i: nat)
      ensures i == First(DoorNames(config.doors), name)
    {
      ghost var names := DoorNames(config.doors);
      i := 0;
      while i < |config.doors| && config.doors[i].name != name
        invariant i <= |config.doors|
        invariant First(names, name) == i + First(names[i..], name)
      {
        assert names[i..][1..] == names[i + 1..];
        i := i + 1;
      }
    }

    method SetDoorPolarity(door: string, activeLow: Option<bool>, actor: string) returns (r: Response)
      requires Valid()
      modifies this, file, store, sensors
      ensures Valid() && env == old(env) && (State(), r) == Dispatcher.SetDoorPolarity(old(State()), door, activeLow, actor, env)
    {
      if activeLow.None? {
        return Fail(PolarityNotABoolean);
      }
      var low := activeLow.value;
      var s := FindSensor(door);
      var e := FindEntry(door);
      if s == |sensors| || e == |config.doors| {
        return Fail(NoSuchDoor(door));
      }
      var previous := Polarity(config.doors[e].activeLow);
      if low == previous {
        return Ok(DoorPolarityIs(door, low, None));
      }
      var ok := SavePolarity(e, low, previous);
      if !ok {
        return Fail(CouldNotWriteConfig);
      }
      r := ApplyDoorPolarity(s, door, low, previous, actor);
    }

    /** The stored half of a polarity change. */
    method SavePolarity(e: nat, low: bool, previous: bool) returns (ok: bool)
      requires Valid() && e < |config.doors|
      modifies this`config, file
      ensures Valid() && (ok <==> env.fault.None?)
      ensures State() == old(State()).(config := WithDoor(old(config), e, if ok then low else previous),
                                       disk := Saved(old(file.State()), WithDoor(old(config), e, low), env.fault))
    {
      config := WithDoor(config, e, low);
      ok := Persist();
      if !ok {
        config := WithDoor(config, e, previous);
        assert config == WithDoor(old(config), e, previous);
      }
    }

    /** The live half of a polarity change, once the configuration is saved. */
    method ApplyDoorPolarity(s: nat, door: string, low: bool, previous: bool, actor: string) returns (r: Response)
      requires Valid() && s < |sensors|
      modifies this`mqtt, store, sensors
      ensures Valid() && (State(), r) == DoorPolarityApplied(old(State()), s, door, low, previous, actor, env)
    {
      var state := ChangeSensor(s, low);
      assert State() == old(State()).(sensors := old(State()).sensors[s := DoorSensor.WithPolarity(old(State()).sensors[s], low, env.now)]);
      Publish(DoorStateIs(door, state));
      Log(Entry(DOOR_STATE).(door := Some(door), detail := StateDetail(state)));
      Log(Entry(SET_DOOR_POLARITY).(actor := Some(actor), door := Some(door), detail := PolarityChange(low, previous)));
      return Ok(DoorPolarityIs(door, low, Some(state)));
    }

    method ChangeSensor(s: nat, low: bool) returns (state: Reading)
      requires Valid() && s < |sensors|
      modifies sensors[s]
      ensures Valid()
      ensures States(sensors) == old(States(sensors))[s := DoorSensor.WithPolarity(old(States(sensors))[s], low, env.now)]
      ensures state == States(sensors)[s].state
    {
      state := sensors[s].SetActiveLow(low, env.now);
    }

    method AddTag(rawUid: string, rawName: string, actor: string) returns (r: Response)
      requires Valid()
      modifies this, file, store
      ensures Valid() && env == old(env) && (State(), r) == Dispatcher.AddTag(old(State()), rawUid, rawName, actor, env)
    {
      var uid := Normalize(rawUid);
      var name := CleanName(rawName);
      if uid == "" {
        return Fail(UidNotHex);
      }
      if name == "" {
        name := TagName(uid);
      }
      if uid in config.authorized {
        return Fail(UidAssigned(uid, config.authorized[uid]));
      }
      var ok := StoreTag(uid, name);
      if !ok {
        return Fail(CouldNotWriteConfig);
      }
      Log(TagRecord(TAG_ADDED, uid, name, actor, NoDetail));
      Publish(Alert(TAG_ADDED, uid, name));
      return Ok(TagIs(uid, name));
    }

    method RemoveTag(rawUid: string, actor: string) returns (r: Response)
      requires Valid()
      modifies this, file, store
      ensures Valid() && env == old(env) && (State(), r) == Dispatcher.RemoveTag(old(State()), rawUid, actor, env)
    {
      var uid := Normalize(rawUid);
      if uid !in config.authorized {
        return Fail(NoSuchTag);
      }
      ghost var before := config.authorized;
      var name := config.authorized[uid];
      config := config.(authorized := config.authorized - {uid});
      var ok := Persist();
      if !ok {
        config := config.(authorized := config.authorized[uid := name]);
        assert config.authorized == before;
        return Fail(CouldNotWriteConfig);
      }
      Log(TagRecord(TAG_REMOVED, uid, name, actor, NoDetail));
      Publish(Alert(TAG_REMOVED, uid, name));
      return Ok(TagIs(uid, name));
    }

    method RenameTag(rawUid: string, rawName: string, actor: string) returns (r: Response)
      requires Valid()
      modifies this, file, store
      ensures Valid() && env == old(env) && (State(), r) == Dispatcher.RenameTag(old(State()), rawUid, rawName, actor, env)
    {
      var uid := Normalize(rawUid);
      var name := CleanName(rawName);
      if uid !in config.authorized {
        return Fail(NoSuchTag);
      }
      if name == "" {
        return Fail(NameEmpty);
      }
      ghost var before := config.authorized;
      var previous := config.authorized[uid];
      config := config.(authorized := config.authorized[uid := name]);
      var ok := Persist();
      if !ok {
        config := config.(authorized := config.authorized[uid := previous]);
        assert config.authorized == before;
        return Fail(CouldNotWriteConfig);
      }
      Log(TagRecord(TAG_RENAMED, uid, name, actor, Text("was " + previous)));
      return Ok(TagIs(uid, name));
    }

    /** Hands the outcome of the last arm over, once. */
    method EnrollStatus() returns (r: Response)
      requires Valid()
      modifies this`result
      ensures Valid() && (State(), r) == RunCommand(old(State()), Command.EnrollStatus, "", env)
    {
      var left := (deadline - env.now).Floor;
      var remaining := if armed && 0 <= left then left else 0;
      var handed := result;
      result := None;
      return Ok(EnrollState(armed, remaining, handed));
    }

    method Unlock(actor: string)
      requires Valid()
      modifies this`mqtt, lock, store
      ensures Valid() && State() == WebUnlock(old(State()), actor, env)
    {
      lock.Unlock(None, env.now);
      mqtt := mqtt + [LockStateIs(UNLOCKED), Alert(WEB_UNLOCK, "", actor)];
      Log(Entry(WEB_UNLOCK).(actor := Some(actor), granted := Some(true)));
    }

    method Lock(actor: string)
      requires Valid()
      modifies this`mqtt, lock, store
      ensures Valid() && State() == WebLock(old(State()), actor, env)
    {
      lock.Lock();
      mqtt := mqtt + [LockStateIs(LOCKED)];
      Log(Entry(WEB_LOCK).(actor := Some(actor)));
    }

    method RunWebCommand(command: Command, actor: string) returns (r: Response)
      requires Valid()
      modifies this, lock, file, store, sensors
      ensures Valid() && env == old(env) && (State(), r) == RunCommand(old(State()), command, actor, env)
    {
      match command
      case ArmEnroll(name) =>
        ArmEnroll(name, actor);
        r := Ok(Armed(ENROLL_WINDOW_SECONDS));
      case EnrollStatus =>
        r := EnrollStatus();
      case CancelEnroll =>
        DisarmEnroll();
        result := None;
        r := Ok(Disarmed);
      case Status =>
        r := Ok(ServiceStatus(lock.state, config.unlockDuration, DoorNames(config.doors), |config.authorized|));
      case HardwareConfig =>
        r := Ok(Hardware(config.activeLowRelay, DoorPolarities(config.doors)));
      case ListTags =>
        r := Ok(Tags(config.authorized));
      case UnlockDoor =>
        Unlock(actor);
        r := Ok(LockIs(UNLOCKED));
      case LockDoor =>
        Lock(actor);
        r := Ok(LockIs(LOCKED));
      case LoginEvent(kind, detail) =>
        Log(Entry(kind).(actor := Some(actor), detail := Text(Clip(detail, 200))));
        r := Ok(Logged);
      case UnknownCommand(cmd) => r := Fail(NoSuchCommand(cmd));
      case _ => r := RunSaved(command, actor);
    }

    /** The commands that save the configuration. */
    method RunSaved(command: Command, actor: string) returns (r: Response)
      requires Valid() && Saves(command)
      modifies this, lock, file, store, sensors
      ensures Valid() && env == old(env) && (State(), r) == RunCommand(old(State()), command, actor, env)
    {
      if command.SetUnlockDuration? {
        r := SetUnlockDuration(command.seconds, actor);
      } else if command.SetLockPolarity? {
        r := SetLockPolarity(command.activeLow, actor);
      } else if command.SetDoorPolarity? {
        r := SetDoorPolarity(command.door, command.activeLow, actor);
      } else if command.AddTag? {
        r := AddTag(command.uid, command.name, actor);
      } else if command.RemoveTag? {
        r := RemoveTag(command.uid, actor);
      } else {
        r := RenameTag(command.uid, command.name, actor);
      }
    }

    /** `None` when the handler raised before it could answer. */
    method DispatchEvent(e: Event) returns (r: Option<Response>)
      requires Valid()
      modifies this, lock, file, store, sensors
      ensures Valid() && env == old(env) && (State(), r) == Dispatch(old(State()), e, env)
    {
      r := None;
      match e
      case NfcUid(uid) => HandleNfc(uid);
      case ButtonPress => HandleButton();
      case DoorState(door, state) =>
        Publish(DoorStateIs(door, state));
        Log(Entry(DOOR_STATE).(door := Some(door), detail := StateDetail(state)));
      case DoorAlert(door, elapsed) =>
        Publish(DoorAlertIs(door, elapsed));
        Log(Entry(DOOR_OPEN_TOO_LONG).(door := Some(door), detail := ElapsedDetail(elapsed)));
      case WebCommand(request, _) =>
        if request.Object? {
          var response := RunWebCommand(request.command, Clip(request.actor, 64));
          r := Some(response);
        }
      case UnlockTimerExpired(_) =>
        lock.Lock();
        Publish(LockStateIs(LOCKED));
    }

    /** Deletes the rows older than `cutoff` when a day or more has passed since the last prune, whether or not
        that works; `pruned` is when it was last tried. */
    method PruneIfDue(last: real, head: real, cutoff: Timestamps.DateTime, fails: bool) returns (pruned: real)
      requires Valid() && Timestamps.Valid(cutoff)
      modifies store`rows, store`committed
      ensures Valid() && State() == old(State())
      ensures pruned == if head - last >= 86400.0 then head else last
      ensures store.rows == if head - last >= 86400.0 && store.connected && store.retentionDays != 0 && !fails
                            then EventStore.Pruned(old(store.rows), Timestamps.Stamp(cutoff)) else old(store.rows)
      ensures store.committed == if head - last >= 86400.0 && store.connected && store.retentionDays != 0 && !fails && !commitFails
                                 then store.rows else old(store.committed)
    {
      if head - last >= PRUNE_INTERVAL_SECONDS {
        store.Prune(cutoff, fails, commitFails);
        return head;
      }
      return last;
    }

    /** A forgotten arm expires. */
    method ExpireEnroll(head: real)
      requires Valid()
      modifies this`armed, this`deadline, this`result
      ensures Valid() && State() == Dispatcher.ExpireEnroll(old(State()), head)
    {
      if armed && head > deadline {
        DisarmEnroll();
        result := Some(TimedOut);
      }
    }

    method TurnLoop(last: real, turn: Turn, now: Timestamps.DateTime, cutoff: Timestamps.DateTime, uncommitted: bool)
      returns (pruned: real)
      requires Valid() && Timestamps.Valid(now) && Timestamps.Valid(cutoff)
      modifies this, lock, file, store, sensors
      ensures Valid() && State() == LoopTurn(old(State()), turn)
      ensures pruned == if turn.head - last >= PRUNE_INTERVAL_SECONDS then turn.head else last
    {
      clock, commitFails := now, uncommitted;
      assert State() == old(State());
      pruned := PruneIfDue(last, turn.head, cutoff, turn.env.logFails);
      ExpireEnroll(turn.head);
      assert State() == Dispatcher.ExpireEnroll(old(State()), turn.head);
      if turn.event.Some? {
        env := turn.env;
        assert State() == Dispatcher.ExpireEnroll(old(State()), turn.head);
        var reply := DispatchEvent(turn.event.value);
      }
    }

    /** The event loop from `start` until shutdown, which comes after `turns`. The wall clock during each turn
        and the retention cutoff it implies are given by `clocks` and `cutoffs`, and `uncommitted` says in
        which turns the history cannot be committed. */
    method RunEventLoop(start: real, turns: seq<Turn>, clocks: seq<Timestamps.DateTime>, cutoffs: seq<Timestamps.DateTime>,
                        uncommitted: seq<bool>)
      returns (lastPrune: real)
      requires Valid() && |clocks| == |cutoffs| == |uncommitted| == |turns|
      requires forall i :: 0 <= i < |turns| ==> Timestamps.Valid(clocks[i]) && Timestamps.Valid(cutoffs[i])
      modifies this, lock, file, store, sensors
      ensures Valid() && State() == LoopRun(old(State()), turns)
      ensures lastPrune == Last(PruneTimes(start, turns))
    {
      lastPrune := start;
      var i := 0;
      assert turns[..0] == [];
      while i < |turns|
        invariant 0 <= i <= |turns| && Valid()
        invariant State() == LoopRun(old(State()), turns[..i])
        invariant lastPrune == Last(PruneTimes(start, turns[..i]))
      {
        LoopRunStep(old(State()), turns, i);
        PruneStep(start, turns, i);
        lastPrune := TurnLoop(lastPrune, turns[i], clocks[i], cutoffs[i], uncommitted[i]);
        i := i + 1;
      }
      assert turns[..|turns|] == turns;
    }
  }

  function Last(times: seq<real>): real
    requires times != []
  {
    times[|times| - 1]
  }

  /** When the loop started, and when it pruned since. */
  function PruneTimes(start: real, turns: seq<Turn>): (times: seq<real>)
    ensures times != []
  {
    if turns == [] then [start]
    else
      var before, head := PruneTimes(start, turns[..|turns| - 1]), turns[|turns| - 1].head;
      if head - Last(before) >= PRUNE_INTERVAL_SECONDS then before + [head] else before
  }

  /** Prunes are a day or more apart, and no turn of the loop begins a day or more after the last one without
      pruning. */
  lemma {:induction false} PrunesAreDaily(start: real, turns: seq<Turn>)
    ensures forall k :: 0 < k < |PruneTimes(start, turns)| ==> PruneTimes(start, turns)[k] - PruneTimes(start, turns)[k - 1] >= 86400.0
    ensures turns != [] ==> turns[|turns| - 1].head - Last(PruneTimes(start, turns)) < 86400.0
    ensures PruneTimes(start, turns)[0] == start
  {
    if turns != [] {
      PrunesAreDaily(start, turns[..|turns| - 1]);
    }
  }

  lemma PruneStep(start: real, turns: seq<Turn>, i: nat)
    requires i < |turns|
    ensures var before, head := Last(PruneTimes(start, turns[..i])), turns[i].head;
            Last(PruneTimes(start, turns[..i + 1])) == if head - before >= PRUNE_INTERVAL_SECONDS then head else before
  {
    assert turns[..i + 1][..i] == turns[..i];
  }

  lemma LoopRunStep(d: Door, turns: seq<Turn>, i: nat)
    requires i < |turns|
    ensures LoopRun(d, turns[..i + 1]) == LoopTurn(LoopRun(d, turns[..i]), turns[i])
  {
    assert turns[..i + 1][..i] == turns[..i];
  }
}
