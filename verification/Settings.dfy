/** Configuration as a transaction: what the file holds, what memory holds and what the live
    controllers use agree after every event, whatever step of a save fails, and across a crash. */
module Settings {
  import opened Basics
  import opened Events
  import opened ConfigFile
  import opened LockController
  import opened Uid
  import opened Dispatcher
  import opened DoorSystem
  import DoorSensor
  import Relock

  predicate OnDisk(d: Disk, c: Config) {
    d.main.synced && d.main.content.Whole? && SameSettings(d.main.content.config, c)
  }

  predicate SensorsAgree(sensors: seq<Sensor>, c: Config) {
    var entries := SensorEntries(c);
    && |sensors| == |entries|
    && forall i :: 0 <= i < |sensors| ==>
         sensors[i].name == entries[i].name && sensors[i].activeLow == Polarity(entries[i].activeLow)
  }

  /** File, memory, lock and sensors hold the same settings. */
  predicate Agree(d: Door) {
    && OnDisk(d.disk, d.config)
    && d.lock.activeLow == d.config.activeLowRelay
    && d.lock.defaultDuration == d.config.unlockDuration
    && SensorsAgree(d.sensors, d.config)
  }

  lemma SameFirst(sensors: seq<Sensor>, c: Config, name: string)
    requires SensorsAgree(sensors, c) && c.doors != []
    ensures First(SensorNames(sensors), name) == First(DoorNames(c.doors), name)
  {
    assert SensorNames(sensors) == DoorNames(c.doors);
  }

  /** A saved change of one door's polarity reaches the sensor built for that door. */
  lemma WithDoorAgrees(sensors: seq<Sensor>, c: Config, i: nat, low: bool, now: real)
    requires i < |c.doors| && SensorsAgree(sensors, c)
    ensures SensorsAgree(sensors[i := DoorSensor.WithPolarity(sensors[i], low, now)], WithDoor(c, i, low))
    ensures low == Polarity(c.doors[i].activeLow) ==> SameSettings(c, WithDoor(c, i, low)) && SensorsAgree(sensors, WithDoor(c, i, low))
  {
  }

  lemma SameSettingsTransitive(a: Config, b: Config, c: Config)
    requires SameSettings(a, b) && SameSettings(b, c)
    ensures SameSettings(a, c)
  {
  }

  lemma DoorPolarityAgrees(d: Door, door: string, activeLow: Option<bool>, actor: string, env: Env)
    requires Agree(d)
    ensures Agree(Dispatcher.SetDoorPolarity(d, door, activeLow, actor, env).0)
  {
    var e := First(DoorNames(d.config.doors), door);
    if activeLow.Some? && e < |d.config.doors| {
      SameFirst(d.sensors, d.config, door);
      var low, previous := activeLow.value, Polarity(d.config.doors[e].activeLow);
      SaveIsAtomic(d.disk, WithDoor(d.config, e, low), env.fault);
      WithDoorAgrees(d.sensors, d.config, e, if env.fault.Some? then previous else low, env.now);
      if env.fault.Some? {
        SameSettingsTransitive(d.disk.main.content.config, d.config, WithDoor(d.config, e, previous));
      }
    }
  }

  /** The configuration that a command without a failing save would leave. */
  function Target(d: Door, command: Command, env: Env): Config {
    RunCommand(d, command, "", env.(fault := None)).0.config
  }

  /** A change of the tags alone that is saved, or rolled back when saving fails. */
  predicate TagsSaved(d: Door, after: Door, tags: map<string, string>, fault: Option<Step>) {
    var config := d.config.(authorized := tags);
    && after.disk == Saved(d.disk, config, fault)
    && after.config == (if fault.None? then config else d.config)
    && after.sensors == d.sensors
    && after.lock.activeLow == d.lock.activeLow && after.lock.defaultDuration == d.lock.defaultDuration
  }

  lemma TagsSavedAgrees(d: Door, after: Door, tags: map<string, string>, fault: Option<Step>)
    requires Agree(d) && TagsSaved(d, after, tags, fault)
    ensures Agree(after)
  {
    SaveIsAtomic(d.disk, d.config.(authorized := tags), fault);
  }

  lemma TagCommandAgrees(d: Door, command: Command, actor: string, env: Env)
    requires Agree(d) && (command.AddTag? || command.RemoveTag? || command.RenameTag?)
    ensures Agree(RunCommand(d, command, actor, env).0)
  {
    var after := RunCommand(d, command, actor, env).0;
    if after != d {
      TagsSavedAgrees(d, after, Target(d, command, env).authorized, env.fault);
    }
  }

  lemma DurationAgrees(d: Door, seconds: Seconds, actor: string, env: Env)
    requires Agree(d)
    ensures Agree(SetDuration(d, seconds, actor, env).0)
  {
    if seconds.Finite? {
      SaveIsAtomic(d.disk, d.config.(unlockDuration := seconds.value), env.fault);
    }
  }

  lemma LockPolarityAgrees(d: Door, activeLow: Option<bool>, actor: string, env: Env)
    requires Agree(d)
    ensures Agree(Dispatcher.SetLockPolarity(d, activeLow, actor, env).0)
  {
    if activeLow.Some? {
      SaveIsAtomic(d.disk, d.config.(activeLowRelay := activeLow.value), env.fault);
    }
  }

  lemma CommandAgrees(d: Door, command: Command, actor: string, env: Env)
    requires Agree(d)
    ensures Agree(RunCommand(d, command, actor, env).0)
  {
    if command.SetDoorPolarity? {
      DoorPolarityAgrees(d, command.door, command.activeLow, actor, env);
    } else if command.AddTag? || command.RemoveTag? || command.RenameTag? {
      TagCommandAgrees(d, command, actor, env);
    } else if command.SetUnlockDuration? {
      DurationAgrees(d, command.seconds, actor, env);
    } else if command.SetLockPolarity? {
      LockPolarityAgrees(d, command.activeLow, actor, env);
    }
  }

  lemma NfcAgrees(d: Door, uid: string, env: Env)
    requires Agree(d)
    ensures Agree(HandleNfc(d, uid, env))
  {
    if d.enroll.armed && uid !in d.config.authorized {
      var name := NameOr(CleanName(d.enroll.name), uid);
      TagsSavedAgrees(d, HandleNfc(d, uid, env), d.config.authorized[uid := name], env.fault);
    }
  }

  lemma DispatchAgrees(d: Door, e: Event, env: Env)
    requires Agree(d)
    ensures Agree(Dispatch(d, e, env).0)
  {
    match e
    case NfcUid(uid) => NfcAgrees(d, uid, env);
    case WebCommand(Object(command, actor), _) => CommandAgrees(d, command, Clip(actor, 64), env);
    case _ =>
  }

  lemma SensorKeepsAgreement(d: Door, i: nat, sensor: Sensor)
    requires Agree(d) && i < |d.sensors|
    requires sensor.name == d.sensors[i].name && sensor.activeLow == d.sensors[i].activeLow
    ensures Agree(d.(sensors := d.sensors[i := sensor]))
  {
  }

  lemma MoveAgrees(s: System, a: Action)
    requires Agree(s.door) && Enabled(s, a) && MovesSensor(a)
    ensures Agree(Next(s, a).door)
  {
    match a
    case PinChange(i, level) => SensorKeepsAgreement(s.door, i, s.door.sensors[i].(pin := level));
    case EdgeSeen(i, seen) => SensorKeepsAgreement(s.door, i, DoorSensor.Observed(s.door.sensors[i], seen, s.now));
    case PollSensor(i) => SensorKeepsAgreement(s.door, i, DoorSensor.Polled(s.door.sensors[i], s.now));
  }

  lemma StepAgrees(s: System, a: Action)
    requires Agree(s.door) && Enabled(s, a)
    ensures Agree(Next(s, a).door)
  {
    if a.DispatchNext? {
      DispatchAgrees(s.door, s.queue[0], Env(s.now, a.fault, a.logFails));
    } else if MovesSensor(a) {
      MoveAgrees(s, a);
    } else {
      StepFrame(s, a);
    }
  }

  lemma {:induction false} RunAgrees(s: System, actions: seq<Action>, t: System)
    requires Agree(s.door) && Run(s, actions, t)
    ensures Agree(t.door)
    decreases |actions|
  {
    if actions != [] {
      StepAgrees(s, actions[0]);
      RunAgrees(Next(s, actions[0]), actions[1..], t);
    }
  }

  // ----- Main results.

  /** In every reachable state the file, the memory and the controllers hold the same settings, and
      until shutdown the relay encodes the lock's state under the saved polarity. */
  lemma SettingsAlwaysAgree(s: System, setup: seq<real>, actions: seq<Action>, t: System)
    requires Init(s, setup) && Run(s, actions, t)
    ensures Agree(t.door)
    ensures !t.phase.Stopped? ==> t.door.lock.relay == RelayLevel(t.door.config.activeLowRelay, t.door.lock.state)
  {
    RunAgrees(s, actions, t);
    if !t.phase.Stopped? {
      Relock.NoLostRelock(s, setup, actions, t);
    }
  }

  lemma NfcSaves(d: Door, uid: string, env: Env)
    ensures var after := HandleNfc(d, uid, env);
            after.disk == d.disk || after.disk == Saved(d.disk, HandleNfc(d, uid, env.(fault := None)).config, env.fault)
  {
  }

  /** `after` is `d` with nothing saved, or with what `clean`, where no step fails, would leave saved. */
  predicate SavesTarget(d: Door, after: Door, clean: Door, fault: Option<Step>) {
    after.disk == d.disk || after.disk == Saved(d.disk, clean.config, fault)
  }

  lemma SettingSaves(d: Door, command: Command, actor: string, env: Env)
    requires command.SetUnlockDuration? || command.SetLockPolarity? || command.SetDoorPolarity?
    ensures SavesTarget(d, RunCommand(d, command, actor, env).0, RunCommand(d, command, actor, env.(fault := None)).0, env.fault)
  {
  }

  lemma CommandSaves(d: Door, command: Command, actor: string, env: Env)
    ensures SavesTarget(d, RunCommand(d, command, actor, env).0, RunCommand(d, command, actor, env.(fault := None)).0, env.fault)
  {
    if command.SetUnlockDuration? || command.SetLockPolarity? || command.SetDoorPolarity? {
      SettingSaves(d, command, actor, env);
    }
  }

  /** A dispatch saves at most once, and what it saves is the configuration it leaves when the save works. */
  lemma DispatchSaves(d: Door, e: Event, env: Env)
    ensures SavesTarget(d, Dispatch(d, e, env).0, Dispatch(d, e, env.(fault := None)).0, env.fault)
  {
    match e
    case NfcUid(uid) => NfcSaves(d, uid, env);
    case WebCommand(Object(command, actor), _) => CommandSaves(d, command, Clip(actor, 64), env);
    case _ =>
  }

  /** Wherever a crash interrupts the save of a dispatch, in any reachable state, the restart reads
      settings equal to those before the event until the last step of the save, and to those after it
      from then on. */
  lemma CrashDuringDispatch(s: System, setup: seq<real>, actions: seq<Action>, t: System,
                            e: Event, env: Env, n: nat)
    requires Init(s, setup) && Run(s, actions, t) && n <= |STEPS|
    ensures var saved := Dispatch(t.door, e, env.(fault := None)).0.config;
            var content := Reload(AfterSteps(t.door.disk, saved, n));
            content.Whole? && SameSettings(content.config, if n < |STEPS| then t.door.config else saved)
  {
    RunAgrees(s, actions, t);
    CrashKeepsOldOrNew(t.door.disk, Dispatch(t.door, e, env.(fault := None)).0.config, n);
  }

  /** `after` differs from `d` at most in spelling a default polarity out and in the temporary file. */
  predicate NothingChanged(d: Door, after: Door) {
    && after == d.(disk := after.disk, config := after.config)
    && SameSettings(after.config, d.config) && after.disk.main == d.disk.main
  }

  lemma PolarityRefusal(d: Door, door: string, activeLow: Option<bool>, actor: string, env: Env)
    requires Dispatcher.SetDoorPolarity(d, door, activeLow, actor, env).1.Fail?
    ensures NothingChanged(d, Dispatcher.SetDoorPolarity(d, door, activeLow, actor, env).0)
  {
    var e := First(DoorNames(d.config.doors), door);
    if activeLow.Some? && e < |d.config.doors| {
      SaveIsAtomic(d.disk, WithDoor(d.config, e, activeLow.value), env.fault);
    }
  }

  lemma AddTagRefusal(d: Door, uid: string, name: string, actor: string, env: Env)
    requires Dispatcher.AddTag(d, uid, name, actor, env).1.Fail?
    ensures NothingChanged(d, Dispatcher.AddTag(d, uid, name, actor, env).0)
  {
    SaveIsAtomic(d.disk, Target(d, Command.AddTag(uid, name), env), env.fault);
  }

  lemma RemoveTagRefusal(d: Door, uid: string, actor: string, env: Env)
    requires Dispatcher.RemoveTag(d, uid, actor, env).1.Fail?
    ensures NothingChanged(d, Dispatcher.RemoveTag(d, uid, actor, env).0)
  {
    SaveIsAtomic(d.disk, Target(d, Command.RemoveTag(uid), env), env.fault);
  }

  lemma RenameTagRefusal(d: Door, uid: string, name: string, actor: string, env: Env)
    requires Dispatcher.RenameTag(d, uid, name, actor, env).1.Fail?
    ensures NothingChanged(d, Dispatcher.RenameTag(d, uid, name, actor, env).0)
  {
    SaveIsAtomic(d.disk, Target(d, Command.RenameTag(uid, name), env), env.fault);
  }

  /** A command that is refused, for whatever reason, changes no setting, no tag, no state of the lock,
      the sensors or the enrollment, and leaves no record. */
  lemma RefusalChangesNothing(d: Door, command: Command, actor: string, env: Env)
    requires RunCommand(d, command, actor, env).1.Fail?
    ensures NothingChanged(d, RunCommand(d, command, actor, env).0)
  {
    match command
    case SetDoorPolarity(door, activeLow) => PolarityRefusal(d, door, activeLow, actor, env);
    case AddTag(uid, name) => AddTagRefusal(d, uid, name, actor, env);
    case RemoveTag(uid) => RemoveTagRefusal(d, uid, actor, env);
    case RenameTag(uid, name) => RenameTagRefusal(d, uid, name, actor, env);
    case _ => SaveIsAtomic(d.disk, Target(d, command, env), env.fault);
  }

  // ----- How long an unlock lasts.

  /** In every reachable state, a dispatch that unlocks starts the one timer that then counts, and it is due
      after exactly the duration configured at that moment. */
  lemma UnlockLastsAsConfigured(s: System, setup: seq<real>, before: seq<Action>, u: System, fault: Option<Step>, logFails: bool)
    requires Init(s, setup) && Run(s, before, u)
    requires Enabled(u, DispatchNext(fault, logFails)) && Unlocks(u.door, u.queue[0])
    ensures var v, id := DispatchHead(u, fault, logFails), u.door.lock.nextTimer;
            && v.door.lock.state == UNLOCKED && v.door.lock.timer == Some(id)
            && v.door.lock.pending == map[id := u.now + u.door.config.unlockDuration]
            && id in v.h.started && v.h.started[id].at == u.now && v.h.started[id].due == u.now + u.door.config.unlockDuration
  {
    LockInReach(s, setup, before, u);
    UnlockStartsTimer(u, fault, logFails);
  }

  lemma LockInReach(s: System, setup: seq<real>, before: seq<Action>, u: System)
    requires Init(s, setup) && Run(s, before, u)
    ensures u.door.lock.defaultDuration == u.door.config.unlockDuration && Cancelled(u.door.lock).pending == map[]
  {
    SettingsAlwaysAgree(s, setup, before, u);
    Relock.InitHasInv(s, setup);
    Relock.RunKeepsInv(s, before, u);
    CancelledAll(u);
  }

  /** The one timer that may count is the one that the next unlock cancels. */
  lemma CancelledAll(s: System)
    requires Relock.Inv(s)
    ensures Cancelled(s.door.lock).pending == map[]
  {
    assert forall id :: id in s.door.lock.pending ==> s.door.lock.timer == Some(id);
  }

  lemma UnlockStartsTimer(s: System, fault: Option<Step>, logFails: bool)
    requires s.phase.Waiting? && s.queue != [] && Unlocks(s.door, s.queue[0]) && Cancelled(s.door.lock).pending == map[]
    ensures var lock, id := DispatchHead(s, fault, logFails).door.lock, s.door.lock.nextTimer;
            && lock.state == UNLOCKED && lock.timer == Some(id) && lock.pending == map[id := s.now + s.door.lock.defaultDuration]
            && id in DispatchHead(s, fault, logFails).h.started
            && DispatchHead(s, fault, logFails).h.started[id].at == s.now
            && DispatchHead(s, fault, logFails).h.started[id].due == lock.pending[id]
  {
    DispatchLock(s.door, s.queue[0], Env(s.now, fault, logFails));
    UnlockAlone(s.door.lock, s.now);
  }

  lemma UnlockAlone(k: Lock, now: real)
    requires Cancelled(k).pending == map[]
    ensures var open := Unlocked(k, None, now);
            && open.pending == map[k.nextTimer := now + k.defaultDuration] && open.timer == Some(k.nextTimer)
            && open.state == UNLOCKED && open.nextTimer == k.nextTimer + 1
  {
  }

  predicate InRange(duration: real) {
    1.0 <= duration <= 60.0
  }

  /** The default duration is in range, and so was the length of every timer started so far. */
  ghost predicate TimersInRange(s: System) {
    && InRange(s.door.lock.defaultDuration)
    && forall id :: id in s.h.started ==> InRange(s.h.started[id].due - s.h.started[id].at)
  }

  lemma DurationStays(d: Door, command: Command, actor: string, env: Env)
    requires !command.SetUnlockDuration?
    ensures RunCommand(d, command, actor, env).0.lock.defaultDuration == d.lock.defaultDuration
  {
  }

  lemma CommandDuration(d: Door, command: Command, actor: string, env: Env)
    requires InRange(d.lock.defaultDuration)
    ensures InRange(RunCommand(d, command, actor, env).0.lock.defaultDuration)
  {
    if !command.SetUnlockDuration? {
      DurationStays(d, command, actor, env);
    }
  }

  lemma DispatchDuration(d: Door, e: Event, env: Env)
    requires InRange(d.lock.defaultDuration)
    ensures InRange(Dispatch(d, e, env).0.lock.defaultDuration)
  {
    match e
    case WebCommand(Object(command, actor), _) => CommandDuration(d, command, Clip(actor, 64), env);
    case _ =>
  }

  lemma DispatchKeepsRange(s: System, fault: Option<Step>, logFails: bool)
    requires TimersInRange(s) && s.phase.Waiting? && s.queue != []
    ensures TimersInRange(DispatchHead(s, fault, logFails))
  {
    DispatchDuration(s.door, s.queue[0], Env(s.now, fault, logFails));
    DispatchLock(s.door, s.queue[0], Env(s.now, fault, logFails));
  }

  lemma StepKeepsRange(s: System, a: Action)
    requires TimersInRange(s) && Enabled(s, a)
    ensures TimersInRange(Next(s, a))
  {
    if a.DispatchNext? {
      DispatchKeepsRange(s, a.fault, a.logFails);
    } else {
      StepFrame(s, a);
    }
  }

  lemma {:induction false} RunKeepsRange(s: System, actions: seq<Action>, t: System)
    requires TimersInRange(s) && Run(s, actions, t)
    ensures TimersInRange(t)
    decreases |actions|
  {
    if actions != [] {
      StepKeepsRange(s, actions[0]);
      RunKeepsRange(Next(s, actions[0]), actions[1..], t);
    }
  }

  /** If the configured duration is in range at the start, then in every run every unlock's timer is due
      at least one and at most sixty seconds after the unlock. */
  lemma UnlocksLastOneToSixtySeconds(s: System, setup: seq<real>, actions: seq<Action>, t: System, id: nat)
    requires Init(s, setup) && InRange(s.door.config.unlockDuration) && Run(s, actions, t)
    requires id in t.h.started
    ensures 1.0 <= t.h.started[id].due - t.h.started[id].at <= 60.0
    ensures id in t.door.lock.pending ==> t.door.lock.pending[id] == t.h.started[id].due
  {
    RunKeepsRange(s, actions, t);
    Relock.InitHasInv(s, setup);
    Relock.RunKeepsInv(s, actions, t);
  }

  // ----- Stored keys stay canonical.

  predicate CanonicalKeys(tags: map<string, string>) {
    forall uid :: uid in tags ==> Canonical(uid)
  }

  predicate CanonicalScans(queue: seq<Event>) {
    forall i :: 0 <= i < |queue| && queue[i].NfcUid? ==> Canonical(queue[i].uid)
  }

  lemma NormalizedIsCanonical(raw: string)
    ensures Normalize(raw) == "" || Canonical(Normalize(raw))
  {
  }

  lemma CommandKeepsKeys(d: Door, command: Command, actor: string, env: Env)
    requires CanonicalKeys(d.config.authorized)
    ensures CanonicalKeys(RunCommand(d, command, actor, env).0.config.authorized)
  {
    if command.AddTag? {
      NormalizedIsCanonical(command.uid);
    }
  }

  lemma DispatchKeepsKeys(d: Door, e: Event, env: Env)
    requires CanonicalKeys(d.config.authorized) && (e.NfcUid? ==> Canonical(e.uid))
    ensures CanonicalKeys(Dispatch(d, e, env).0.config.authorized)
  {
    match e
    case WebCommand(Object(command, actor), _) => CommandKeepsKeys(d, command, Clip(actor, 64), env);
    case _ =>
  }

  lemma QueueStep(s: System, a: Action)
    requires CanonicalScans(s.queue) && Enabled(s, a)
    ensures CanonicalScans(Next(s, a).queue)
  {
    if a.PresentCard? {
      DecodeHex(a.bytes);
    }
    if !a.DispatchNext? {
      StepFrame(s, a);
    }
  }

  lemma StepKeepsKeys(s: System, a: Action)
    requires CanonicalKeys(s.door.config.authorized) && CanonicalScans(s.queue) && Enabled(s, a)
    ensures CanonicalKeys(Next(s, a).door.config.authorized) && CanonicalScans(Next(s, a).queue)
  {
    QueueStep(s, a);
    if a.DispatchNext? {
      DispatchKeepsKeys(s.door, s.queue[0], Env(s.now, a.fault, a.logFails));
    }
  }

  lemma {:induction false} RunKeepsKeys(s: System, actions: seq<Action>, t: System)
    requires CanonicalKeys(s.door.config.authorized) && CanonicalScans(s.queue) && Run(s, actions, t)
    ensures CanonicalKeys(t.door.config.authorized)
    decreases |actions|
  {
    if actions != [] {
      StepKeepsKeys(s, actions[0]);
      RunKeepsKeys(Next(s, actions[0]), actions[1..], t);
    }
  }

  /** If the initial keys are canonical, then at every point of every run each enrolled tag is removed
      and renamed by any way of writing its UID, and by no way of writing another one. */
  lemma EveryTagCanBeNamed(s: System, setup: seq<real>, actions: seq<Action>, t: System, uid: string, raw: string,
                           name: string, actor: string, env: Env)
    requires Init(s, setup) && CanonicalKeys(s.door.config.authorized) && Run(s, actions, t)
    requires uid in t.door.config.authorized && env.fault.None?
    ensures Canonical(uid)
    ensures uid !in Dispatcher.RemoveTag(t.door, raw, actor, env).0.config.authorized <==> IsVariant(raw, uid)
    ensures CleanName(name) != "" ==>
              var (after, response) := Dispatcher.RenameTag(t.door, raw, name, actor, env);
              && (response == Ok(TagIs(uid, CleanName(name))) <==> IsVariant(raw, uid))
              && after.config.authorized[uid] == if IsVariant(raw, uid) then CleanName(name) else t.door.config.authorized[uid]
  {
    RunKeepsKeys(s, actions, t);
    NormalizeIffVariant(raw, uid);
  }
}
