/** What reaches Home Assistant and the history about the doors: every alert that a poll posts, and a record
    of every state and alert published. */
module Trail {
  import opened Basics
  import opened Events
  import opened ConfigFile
  import opened LockController
  import opened Dispatcher
  import opened DoorSystem
  import opened Effects
  import opened Publishing
  import Audit
  import Alerting
  import DoorSensor

  /** The alerts published for `door`, each with the time the door had been open. */
  function AlertedFor(mqtt: seq<Message>, door: string): seq<real> {
    if mqtt == [] then []
    else (if mqtt[0].DoorAlertIs? && mqtt[0].door == door then [mqtt[0].elapsed] else []) + AlertedFor(mqtt[1..], door)
  }

  function QueuedAlerts(queue: seq<Event>, door: string): seq<real> {
    if queue == [] then []
    else (if queue[0].DoorAlert? && queue[0].door == door then [queue[0].elapsed] else []) + QueuedAlerts(queue[1..], door)
  }

  predicate IsAlertRecord(r: Record, door: string) {
    r.kind == DOOR_OPEN_TOO_LONG && r.door == Some(door) && r.detail.ElapsedDetail?
  }

  predicate IsStateRecord(r: Record, door: string) {
    r.kind == DOOR_STATE && r.door == Some(door) && r.detail.StateDetail?
  }

  function RecordedAlerts(log: seq<Record>, door: string): seq<real> {
    if log == [] then []
    else (if IsAlertRecord(log[0], door) then [log[0].detail.elapsed] else []) + RecordedAlerts(log[1..], door)
  }

  function RecordedStates(log: seq<Record>, door: string): seq<Reading> {
    if log == [] then []
    else (if IsStateRecord(log[0], door) then [log[0].detail.state] else []) + RecordedStates(log[1..], door)
  }

  lemma Assoc<T>(a: seq<T>, b: seq<T>, c: seq<T>)
    ensures a + b + c == a + (b + c)
  {
  }

  lemma {:induction false} AlertedAppend(a: seq<Message>, b: seq<Message>, door: string)
    ensures AlertedFor(a + b, door) == AlertedFor(a, door) + AlertedFor(b, door)
  {
    if a == [] {
      assert a + b == b;
    } else {
      assert (a + b)[1..] == a[1..] + b;
      AlertedAppend(a[1..], b, door);
      Assoc(AlertedFor(a[..1], door), AlertedFor(a[1..], door), AlertedFor(b, door));
    }
  }

  lemma {:induction false} QueuedAlertsAppend(a: seq<Event>, b: seq<Event>, door: string)
    ensures QueuedAlerts(a + b, door) == QueuedAlerts(a, door) + QueuedAlerts(b, door)
  {
    if a == [] {
      assert a + b == b;
    } else {
      assert (a + b)[1..] == a[1..] + b;
      QueuedAlertsAppend(a[1..], b, door);
      Assoc(QueuedAlerts(a[..1], door), QueuedAlerts(a[1..], door), QueuedAlerts(b, door));
    }
  }

  lemma {:induction false} RecordedAlertsAppend(a: seq<Record>, b: seq<Record>, door: string)
    ensures RecordedAlerts(a + b, door) == RecordedAlerts(a, door) + RecordedAlerts(b, door)
  {
    if a == [] {
      assert a + b == b;
    } else {
      assert (a + b)[1..] == a[1..] + b;
      RecordedAlertsAppend(a[1..], b, door);
      Assoc(RecordedAlerts(a[..1], door), RecordedAlerts(a[1..], door), RecordedAlerts(b, door));
    }
  }

  lemma {:induction false} RecordedStatesAppend(a: seq<Record>, b: seq<Record>, door: string)
    ensures RecordedStates(a + b, door) == RecordedStates(a, door) + RecordedStates(b, door)
  {
    if a == [] {
      assert a + b == b;
    } else {
      assert (a + b)[1..] == a[1..] + b;
      RecordedStatesAppend(a[1..], b, door);
      Assoc(RecordedStates(a[..1], door), RecordedStates(a[1..], door), RecordedStates(b, door));
    }
  }

  // ----- What one dispatch leaves about the doors.

  /** Nothing about any door. */
  predicate Doorless(records: seq<Record>, messages: seq<Message>) {
    && (forall i :: 0 <= i < |records| ==> records[i].door.None?)
    && forall i :: 0 <= i < |messages| ==> !messages[i].DoorStateIs? && !messages[i].DoorAlertIs?
  }

  /** The records tell of a door exactly what the messages do. */
  predicate Matching(records: seq<Record>, messages: seq<Message>, door: string) {
    && RecordedStates(records, door) == PublishedFor(messages, door)
    && RecordedAlerts(records, door) == AlertedFor(messages, door)
  }

  lemma {:induction false} DoorlessRecords(records: seq<Record>, door: string)
    requires Doorless(records, [])
    ensures RecordedStates(records, door) == [] && RecordedAlerts(records, door) == []
  {
    if records != [] {
      DoorlessRecords(records[1..], door);
    }
  }

  lemma {:induction false} DoorlessMessages(messages: seq<Message>, door: string)
    requires Doorless([], messages)
    ensures PublishedFor(messages, door) == [] && AlertedFor(messages, door) == []
  {
    if messages != [] {
      DoorlessMessages(messages[1..], door);
    }
  }

  lemma DoorlessMatch(records: seq<Record>, messages: seq<Message>, door: string)
    requires Doorless(records, messages)
    ensures Matching(records, messages, door) && AlertedFor(messages, door) == []
  {
    DoorlessRecords(records, door);
    DoorlessMessages(messages, door);
  }

  lemma TagCommandLeaves(d: Door, command: Command, actor: string, env: Env) returns (records: seq<Record>, messages: seq<Message>)
    requires command.AddTag? || command.RemoveTag? || command.RenameTag?
    ensures Leaves(d, RunCommand(d, command, actor, env).0, records, messages, env) && Doorless(records, messages)
  {
    records, messages := [], [];
    var response := RunCommand(d, command, actor, env).1;
    match command
    case AddTag(raw, given) =>
      AddTagEffect(d, raw, given, actor, env);
      if response.Ok? {
        var uid, name := response.result.uid, response.result.name;
        records := [Record(TAG_ADDED, Some(uid), Some(name), None, None, Some(actor), NoDetail)];
        messages := [Alert(TAG_ADDED, uid, name)];
      }
    case RemoveTag(raw) =>
      RemoveTagEffect(d, raw, actor, env);
      if response.Ok? {
        var uid, name := response.result.uid, response.result.name;
        records := [Record(TAG_REMOVED, Some(uid), Some(name), None, None, Some(actor), NoDetail)];
        messages := [Alert(TAG_REMOVED, uid, name)];
      }
    case RenameTag(raw, given) =>
      RenameTagEffect(d, raw, given, actor, env);
      if response.Ok? {
        var uid, name := response.result.uid, response.result.name;
        records := [Record(TAG_RENAMED, Some(uid), Some(name), None, None, Some(actor), Text("was " + d.config.authorized[uid]))];
      }
  }

  lemma SettingLeaves(d: Door, command: Command, actor: string, env: Env) returns (records: seq<Record>)
    requires command.SetUnlockDuration? || command.SetLockPolarity?
    ensures Leaves(d, RunCommand(d, command, actor, env).0, records, [], env) && Doorless(records, [])
  {
    records := [];
    var response := RunCommand(d, command, actor, env).1;
    match command
    case SetUnlockDuration(seconds) =>
      SetDurationEffect(d, seconds, actor, env);
      if response.Ok? {
        records := [Record(SET_UNLOCK_DURATION, None, None, None, None, Some(actor), DurationChange(seconds.value, d.config.unlockDuration))];
      }
    case SetLockPolarity(activeLow) =>
      SetLockPolarityEffect(d, activeLow, actor, env);
      if response.Ok? && activeLow.value != d.config.activeLowRelay {
        records := [Record(SET_LOCK_POLARITY, None, None, None, None, Some(actor), PolarityChange(activeLow.value, !activeLow.value))];
      }
  }

  lemma OtherCommandLeaves(d: Door, command: Command, actor: string, env: Env) returns (records: seq<Record>, messages: seq<Message>)
    requires !Saves(command)
    ensures Leaves(d, RunCommand(d, command, actor, env).0, records, messages, env) && Doorless(records, messages)
  {
    records, messages := [], [];
    match command
    case ArmEnroll(name) =>
      EnrollCommandEffect(d, name, actor, env);
      var kept := RunCommand(d, command, actor, env).0.enroll.name;
      records := [Record(ENROLL_ARMED, None, if name == "" then None else Some(kept), None, None, Some(actor), NoDetail)];
    case UnlockDoor =>
      LockCommandEffect(d, actor, env);
      records := [Record(WEB_UNLOCK, None, None, Some(true), None, Some(actor), NoDetail)];
      messages := [LockStateIs(UNLOCKED), Alert(WEB_UNLOCK, "", actor)];
    case LockDoor =>
      LockCommandEffect(d, actor, env);
      records := [Record(WEB_LOCK, None, None, None, None, Some(actor), NoDetail)];
      messages := [LockStateIs(LOCKED)];
    case LoginEvent(kind, detail) =>
      LoginEventEffect(d, kind, detail, "", actor, env);
      var kept :| kept <= detail && |kept| == Min(200, |detail|)
        && Leaves(d, RunCommand(d, command, actor, env).0, [Record(kind, None, None, None, None, Some(actor), Text(kept))], [], env);
      records := [Record(kind, None, None, None, None, Some(actor), Text(kept))];
    case _ => EnrollCommandEffect(d, "", actor, env);
  }

  lemma TurnMatches(first: Record, second: Record, state: Reading, door: string, about: string)
    requires first.kind == DOOR_STATE && first.door == Some(door) && first.detail == StateDetail(state)
    requires second.kind == SET_DOOR_POLARITY
    ensures Matching([first, second], [DoorStateIs(door, state)], about) && AlertedFor([DoorStateIs(door, state)], about) == []
  {
    assert [first, second] == [first] + [second];
    RecordedStatesAppend([first], [second], about);
    RecordedAlertsAppend([first], [second], about);
  }

  lemma PolarityLeaves(d: Door, door: string, activeLow: Option<bool>, actor: string, env: Env, about: string)
    returns (records: seq<Record>, messages: seq<Message>)
    ensures Leaves(d, RunCommand(d, Command.SetDoorPolarity(door, activeLow), actor, env).0, records, messages, env)
    ensures Matching(records, messages, about) && AlertedFor(messages, about) == []
  {
    records, messages := [], [];
    var names, entries := SensorNames(d.sensors), DoorNames(d.config.doors);
    if door in names && door in entries {
      FirstIsFirst(names, door);
      FirstIsFirst(entries, door);
      var s, e := First(names, door), First(entries, door);
      SetDoorPolarityEffect(d, door, activeLow, actor, env, s, e);
      var (after, response) := RunCommand(d, Command.SetDoorPolarity(door, activeLow), actor, env);
      var previous := Polarity(d.config.doors[e].activeLow);
      if response.Ok? && activeLow.value != previous {
        var state := after.sensors[s].state;
        var first := Record(DOOR_STATE, None, None, None, Some(door), None, StateDetail(state));
        var second := Record(SET_DOOR_POLARITY, None, None, None, Some(door), Some(actor), PolarityChange(activeLow.value, previous));
        records, messages := [first, second], [DoorStateIs(door, state)];
        TurnMatches(first, second, state, door, about);
      }
    } else {
      UnknownDoorEffect(d, door, activeLow, actor, env);
    }
  }

  lemma CommandLeaves(d: Door, command: Command, actor: string, env: Env, door: string) returns (records: seq<Record>, messages: seq<Message>)
    ensures Leaves(d, RunCommand(d, command, actor, env).0, records, messages, env)
    ensures Matching(records, messages, door) && AlertedFor(messages, door) == []
  {
    if command.SetDoorPolarity? {
      records, messages := PolarityLeaves(d, command.door, command.activeLow, actor, env, door);
    } else {
      if command.AddTag? || command.RemoveTag? || command.RenameTag? {
        records, messages := TagCommandLeaves(d, command, actor, env);
      } else if command.SetUnlockDuration? || command.SetLockPolarity? {
        records := SettingLeaves(d, command, actor, env);
        messages := [];
      } else {
        records, messages := OtherCommandLeaves(d, command, actor, env);
      }
      DoorlessMatch(records, messages, door);
    }
  }

  lemma ScanLeaves(d: Door, uid: string, env: Env) returns (records: seq<Record>, messages: seq<Message>)
    ensures Leaves(d, Dispatch(d, NfcUid(uid), env).0, records, messages, env) && Doorless(records, messages)
  {
    var after, tags := Dispatch(d, NfcUid(uid), env).0, d.config.authorized;
    if d.enroll.armed {
      CaptureEffect(d, uid, env);
      records, messages := [], [TagScanned(uid)];
      match after.enroll.result.value
      case Already(_, name) =>
        records := [Record(TAG_SCAN_DUPLICATE, Some(uid), Some(name), None, None, Some(d.enroll.actor), NoDetail)];
      case Added(_, name) =>
        records := [Record(TAG_ADDED, Some(uid), Some(name), None, None, Some(d.enroll.actor), Text("scanned at door reader"))];
        messages := [TagScanned(uid), Alert(TAG_ADDED, uid, name)];
      case _ =>
    } else {
      ScanEffect(d, uid, env);
      if uid in tags {
        records := [Record(ACCESS_GRANTED, Some(uid), Some(tags[uid]), Some(true), None, None, NoDetail)];
        messages := [TagScanned(uid), LockStateIs(UNLOCKED), LastAccess(uid, tags[uid], true), Alert(ACCESS_GRANTED, uid, tags[uid])];
      } else {
        records := [Record(ACCESS_DENIED, Some(uid), Some("Unknown"), Some(false), None, None, NoDetail)];
        messages := [TagScanned(uid), LastAccess(uid, "Unknown", false), Alert(ACCESS_DENIED, uid, "Unknown")];
      }
    }
  }

  lemma LockEventLeaves(d: Door, e: Event, env: Env) returns (records: seq<Record>, messages: seq<Message>)
    requires e.ButtonPress? || e.UnlockTimerExpired?
    ensures Leaves(d, Dispatch(d, e, env).0, records, messages, env) && Doorless(records, messages)
  {
    DeviceEffect(d, "", UNKNOWN, 0.0, if e.ButtonPress? then 0 else e.timer, env);
    if e.ButtonPress? {
      records := [Record(BUTTON_UNLOCK, None, None, Some(true), None, None, NoDetail)];
      messages := [LockStateIs(UNLOCKED), Alert(BUTTON_UNLOCK, "", "")];
    } else {
      records, messages := [], [LockStateIs(LOCKED)];
    }
  }

  lemma DoorStateLeaves(d: Door, name: string, state: Reading, env: Env, door: string) returns (records: seq<Record>, messages: seq<Message>)
    ensures Leaves(d, Dispatch(d, DoorState(name, state), env).0, records, messages, env)
    ensures Matching(records, messages, door) && AlertedFor(messages, door) == []
  {
    DeviceEffect(d, name, state, 0.0, 0, env);
    records := [Record(DOOR_STATE, None, None, None, Some(name), None, StateDetail(state))];
    messages := [DoorStateIs(name, state)];
  }

  lemma DoorAlertLeaves(d: Door, name: string, elapsed: real, env: Env, door: string) returns (records: seq<Record>, messages: seq<Message>)
    ensures Leaves(d, Dispatch(d, DoorAlert(name, elapsed), env).0, records, messages, env)
    ensures Matching(records, messages, door) && AlertedFor(messages, door) == if name == door then [elapsed] else []
  {
    DeviceEffect(d, name, UNKNOWN, elapsed, 0, env);
    records := [Record(DOOR_OPEN_TOO_LONG, None, None, None, Some(name), None, ElapsedDetail(elapsed))];
    messages := [DoorAlertIs(name, elapsed)];
  }

  /** A dispatch records about a door what it publishes, and publishes an alert exactly for an alert. */
  lemma DispatchLeaves(d: Door, e: Event, env: Env, door: string) returns (records: seq<Record>, messages: seq<Message>)
    ensures Leaves(d, Dispatch(d, e, env).0, records, messages, env)
    ensures Matching(records, messages, door) && AlertedFor(messages, door) == QueuedAlerts([e], door)
  {
    match e
    case NfcUid(uid) =>
      records, messages := ScanLeaves(d, uid, env);
      DoorlessMatch(records, messages, door);
    case WebCommand(request, conn) =>
      var actor := RequestEffect(d, request, conn, env);
      if request.Object? {
        records, messages := CommandLeaves(d, request.command, actor, env, door);
      } else {
        records, messages := [], [];
      }
    case DoorState(name, state) => records, messages := DoorStateLeaves(d, name, state, env, door);
    case DoorAlert(name, elapsed) => records, messages := DoorAlertLeaves(d, name, elapsed, env, door);
    case _ =>
      records, messages := LockEventLeaves(d, e, env);
      DoorlessMatch(records, messages, door);
  }

  // ----- Whole runs.

  function AlertsTold(s: System, door: string): seq<real> {
    AlertedFor(s.door.mqtt, door) + QueuedAlerts(s.queue, door)
  }

  /** What an action posts: the alert of a poll that is due, if there is room. */
  function AlertOf(s: System, a: Action, door: string): seq<real>
    requires Enabled(s, a)
  {
    if a.PollSensor? && |s.queue| < QUEUE_CAPACITY && DoorSensor.AlertDue(s.door.sensors[a.i], s.now) && s.door.sensors[a.i].name == door
    then [s.now - s.door.sensors[a.i].openSince.value] else []
  }

  function AlertPosts(s: System, actions: seq<Action>, door: string): seq<real>
    decreases |actions|
  {
    if actions == [] || !Enabled(s, actions[0]) then []
    else AlertOf(s, actions[0], door) + AlertPosts(Next(s, actions[0]), actions[1..], door)
  }

  /** The history tells of the door exactly what was published. */
  predicate Told(d: Door, door: string) {
    && d.storeUp && RecordedStates(d.log, door) == PublishedFor(d.mqtt, door)
    && RecordedAlerts(d.log, door) == AlertedFor(d.mqtt, door)
  }

  lemma DispatchTellsAlerts(s: System, fault: Option<Step>, logFails: bool, door: string)
    requires s.phase.Waiting? && s.queue != []
    ensures AlertsTold(DispatchHead(s, fault, logFails), door) == AlertsTold(s, door)
    ensures Told(s.door, door) && !logFails ==> Told(DispatchHead(s, fault, logFails).door, door)
  {
    var e, t := s.queue[0], DispatchHead(s, fault, logFails);
    var records, messages := DispatchLeaves(s.door, e, Env(s.now, fault, logFails), door);
    AlertedAppend(s.door.mqtt, messages, door);
    assert s.queue == [e] + t.queue;
    QueuedAlertsAppend([e], t.queue, door);
    Assoc(AlertedFor(s.door.mqtt, door), QueuedAlerts([e], door), QueuedAlerts(t.queue, door));
    if Told(s.door, door) && !logFails {
      MatchingKept(s.door, t.door, records, messages, door);
    }
  }

  lemma MatchingKept(d: Door, after: Door, records: seq<Record>, messages: seq<Message>, door: string)
    requires Told(d, door) && Matching(records, messages, door)
    requires after.storeUp && after.log == d.log + records && after.mqtt == d.mqtt + messages
    ensures Told(after, door)
  {
    RecordedStatesAppend(d.log, records, door);
    RecordedAlertsAppend(d.log, records, door);
    PublishedAppend(d.mqtt, messages, door);
    AlertedAppend(d.mqtt, messages, door);
  }

  lemma PutTellsAlerts(s: System, t: System, e: Event, door: string)
    requires t.door.mqtt == s.door.mqtt && t.queue == Put(s.queue, e)
    ensures var news := if |s.queue| < QUEUE_CAPACITY && e.DoorAlert? && e.door == door then [e.elapsed] else [];
            AlertsTold(t, door) == AlertsTold(s, door) + news
  {
    QueuedAlertsAppend(s.queue, [e], door);
    Assoc(AlertedFor(s.door.mqtt, door), QueuedAlerts(s.queue, door), QueuedAlerts([e], door));
  }

  lemma PutIsAlert(s: System, a: Action, door: string)
    requires Enabled(s, a)
    ensures AlertOf(s, a, door)
         == if |s.queue| < QUEUE_CAPACITY && Puts(s, a).Some? && Puts(s, a).value.DoorAlert? && Puts(s, a).value.door == door
            then [Puts(s, a).value.elapsed] else []
  {
  }

  lemma StepTellsAlerts(s: System, a: Action, door: string)
    requires Enabled(s, a)
    ensures AlertsTold(Next(s, a), door) == AlertsTold(s, door) + AlertOf(s, a, door)
    ensures Told(s.door, door) && (a.DispatchNext? ==> !a.logFails) ==> Told(Next(s, a).door, door)
  {
    if a.DispatchNext? {
      DispatchTellsAlerts(s, a.fault, a.logFails, door);
    } else {
      StepFrame(s, a);
      PutIsAlert(s, a, door);
      if Puts(s, a).Some? {
        PutTellsAlerts(s, Next(s, a), Puts(s, a).value, door);
      }
    }
  }

  lemma {:induction false} RunTellsAlerts(s: System, actions: seq<Action>, t: System, door: string)
    requires Run(s, actions, t)
    ensures AlertsTold(t, door) == AlertsTold(s, door) + AlertPosts(s, actions, door)
    ensures Told(s.door, door) && Audit.StoreWorks(actions) ==> Told(t.door, door)
    decreases |actions|
  {
    if actions != [] {
      StepTellsAlerts(s, actions[0], door);
      RunTellsAlerts(Next(s, actions[0]), actions[1..], t, door);
      Assoc(AlertsTold(s, door), AlertOf(s, actions[0], door), AlertPosts(Next(s, actions[0]), actions[1..], door));
    }
  }

  lemma {:induction false} NoAlertsAtFirst(queue: seq<Event>, door: string)
    requires forall i :: 0 <= i < |queue| ==> !queue[i].DoorAlert?
    ensures QueuedAlerts(queue, door) == []
  {
    if queue != [] {
      NoAlertsAtFirst(queue[1..], door);
    }
  }

  // ----- Main results.

  /** In every run the alerts published for a door and those still queued are, in order, exactly those its
      polls posted into a queue with room. */
  lemma AlertsArePublished(s: System, setup: seq<real>, actions: seq<Action>, t: System, door: string)
    requires Init(s, setup) && Run(s, actions, t)
    ensures AlertedFor(t.door.mqtt, door) + QueuedAlerts(t.queue, door) == AlertPosts(s, actions, door)
  {
    NoAlertsAtFirst(s.queue, door);
    RunTellsAlerts(s, actions, t, door);
  }

  /** With a working store, in every reachable state the history holds for each door exactly the states and
      the alerts published, in order and with the same times. */
  lemma HistoryTellsDoors(s: System, setup: seq<real>, actions: seq<Action>, t: System, door: string)
    requires Init(s, setup) && s.door.storeUp && Audit.StoreWorks(actions) && Run(s, actions, t)
    ensures RecordedStates(t.door.log, door) == PublishedFor(t.door.mqtt, door)
    ensures RecordedAlerts(t.door.log, door) == AlertedFor(t.door.mqtt, door)
  {
    RunTellsAlerts(s, actions, t, door);
  }

  /** A poll posts an alert exactly when its sensor's current episode has reached the threshold and not
      alerted yet, and the alert carries the time since that episode began. */
  lemma PostedAlertIsEpisode(s: System, setup: seq<real>, before: seq<Action>, u: System, i: nat)
    requires Init(s, setup) && Run(s, before, u) && Enabled(u, PollSensor(i)) && i < |s.door.sensors| && |u.queue| < QUEUE_CAPACITY
    ensures var sensor, moments := s.door.sensors[i], Alerting.MomentsOf(s, before, i) + [DoorSensor.Moment(u.now, DoorSensor.Poll)];
            var n, posted := |moments| - 1, AlertOf(u, PollSensor(i), u.door.sensors[i].name);
            && (posted != [] <==> exists since: nat :: since <= n && DoorSensor.Overdue(sensor, setup[i], moments, since, n))
            && forall since: nat :: since <= n && DoorSensor.Overdue(sensor, setup[i], moments, since, n) ==>
                 posted == [u.now - DoorSensor.TimeBefore(setup[i], moments, since)]
  {
    var sensor, m := s.door.sensors[i], Alerting.MomentsOf(s, before, i);
    var moments, n := m + [DoorSensor.Moment(u.now, DoorSensor.Poll)], |m|;
    Alerting.SensorsRunOnTheirOwn(s, setup, before, u, i);
    assert moments[..n] == m;
    assert DoorSensor.Definite(moments);
    DoorSensor.PollAlertsIff(sensor, setup[i], moments, n);
    forall since: nat | since <= n && DoorSensor.Overdue(sensor, setup[i], moments, since, n)
      ensures AlertOf(u, PollSensor(i), u.door.sensors[i].name) == [u.now - DoorSensor.TimeBefore(setup[i], moments, since)]
    {
      assert DoorSensor.OpenAfter(sensor, moments, n);
      var began := DoorSensor.Episode(sensor, setup[i], moments, n);
      DoorSensor.OneEpisode(sensor, moments, since, began, n);
    }
  }
}
