/** What Home Assistant is told about the doors: the DOOR_STATE events published and still queued
    against what the sensors believe. */
module Publishing {
  import opened Basics
  import opened Events
  import opened ConfigFile
  import opened LockController
  import opened Dispatcher
  import opened DoorSystem
  import DoorSensor
  import Uid

  function PublishedFor(mqtt: seq<Message>, door: string): seq<Reading> {
    if mqtt == [] then []
    else (if mqtt[0].DoorStateIs? && mqtt[0].door == door then [mqtt[0].state] else []) + PublishedFor(mqtt[1..], door)
  }

  function QueuedFor(queue: seq<Event>, door: string): seq<Reading> {
    if queue == [] then []
    else (if queue[0].DoorState? && queue[0].door == door then [queue[0].state] else []) + QueuedFor(queue[1..], door)
  }

  /** Everything Home Assistant has been told about `door` or will be by what is queued. */
  function Told(s: System, door: string): seq<Reading> {
    PublishedFor(s.door.mqtt, door) + QueuedFor(s.queue, door)
  }

  /** The state that sensor `i`'s edge callback is about to post. */
  function Pending(s: System, i: nat): seq<Reading> {
    if i in s.posting then [s.posting[i]] else []
  }

  /** Everything sensor `i` has let Home Assistant know, now or once it is posted and dispatched. */
  function Announced(s: System, i: nat): seq<Reading>
    requires i < |s.door.sensors|
  {
    Told(s, s.door.sensors[i].name) + Pending(s, i)
  }

  predicate EndsWith(told: seq<Reading>, state: Reading) {
    told != [] && told[|told| - 1] == state
  }

  /** What Home Assistant will have been told last, once everything is dispatched, is what the sensor believes. */
  predicate Converges(s: System, i: nat)
    requires i < |s.door.sensors|
  {
    EndsWith(Announced(s, i), s.door.sensors[i].state)
  }

  /** Nothing about the door is on its way. */
  predicate Drained(s: System, i: nat)
    requires i < |s.door.sensors|
  {
    QueuedFor(s.queue, s.door.sensors[i].name) == [] && i !in s.posting
  }

  /** What Home Assistant was told last is what the sensor believes. */
  predicate ShownRight(s: System, i: nat)
    requires i < |s.door.sensors|
  {
    EndsWith(PublishedFor(s.door.mqtt, s.door.sensors[i].name), s.door.sensors[i].state)
  }

  lemma Assoc(a: seq<Reading>, b: seq<Reading>, c: seq<Reading>)
    ensures a + b + c == a + (b + c)
  {
  }

  lemma {:induction false} PublishedAppend(a: seq<Message>, b: seq<Message>, door: string)
    ensures PublishedFor(a + b, door) == PublishedFor(a, door) + PublishedFor(b, door)
  {
    if a == [] {
      assert a + b == b;
    } else {
      assert (a + b)[1..] == a[1..] + b;
      PublishedAppend(a[1..], b, door);
      Assoc(PublishedFor(a[..1], door), PublishedFor(a[1..], door), PublishedFor(b, door));
    }
  }

  lemma {:induction false} QueuedAppend(a: seq<Event>, b: seq<Event>, door: string)
    ensures QueuedFor(a + b, door) == QueuedFor(a, door) + QueuedFor(b, door)
  {
    if a == [] {
      assert a + b == b;
    } else {
      assert (a + b)[1..] == a[1..] + b;
      QueuedAppend(a[1..], b, door);
      Assoc(QueuedFor(a[..1], door), QueuedFor(a[1..], door), QueuedFor(b, door));
    }
  }

  predicate UniqueNames(sensors: seq<Sensor>) {
    forall i, j :: 0 <= i < j < |sensors| ==> sensors[i].name != sensors[j].name
  }

  // ----- The messages of one dispatch.

  /** No message of `ms` is about a door. */
  predicate NoDoor(ms: seq<Message>) {
    forall i :: 0 <= i < |ms| ==> !ms[i].DoorStateIs?
  }

  lemma {:induction false} NoDoorPublished(a: seq<Message>, ms: seq<Message>, door: string)
    requires NoDoor(ms)
    ensures PublishedFor(a + ms, door) == PublishedFor(a, door)
    decreases |ms|
  {
    if ms == [] {
      assert a + ms == a;
    } else {
      assert a + ms == a + [ms[0]] + ms[1..];
      NoDoorPublished(a + [ms[0]], ms[1..], door);
      PublishedAppend(a, [ms[0]], door);
    }
  }

  /** At most one message more, an alert. */
  predicate Alerted(a: seq<Message>, b: seq<Message>) {
    b == a || (b != [] && b[|b| - 1].Alert? && b[..|b| - 1] == a)
  }

  lemma AddTagAlerts(d: Door, uid: string, name: string, actor: string, env: Env)
    ensures var after := Dispatcher.AddTag(d, uid, name, actor, env).0;
            Alerted(d.mqtt, after.mqtt) && after.sensors == d.sensors
  {
  }

  lemma RemoveTagAlerts(d: Door, uid: string, actor: string, env: Env)
    ensures var after := Dispatcher.RemoveTag(d, uid, actor, env).0;
            Alerted(d.mqtt, after.mqtt) && after.sensors == d.sensors
  {
  }

  lemma AlertedPublished(a: seq<Message>, b: seq<Message>, door: string)
    requires Alerted(a, b)
    ensures PublishedFor(b, door) == PublishedFor(a, door)
  {
    if b != a {
      var last := b[|b| - 1];
      assert b == a + [last];
      NoDoorPublished(a, [last], door);
    }
  }

  /** The sensors keep their names, and those named `door` are untouched. */
  predicate DoorKept(before: seq<Sensor>, after: seq<Sensor>, door: string) {
    && |after| == |before|
    && forall i :: 0 <= i < |after| ==> after[i].name == before[i].name && (before[i].name == door ==> after[i] == before[i])
  }

  lemma {:induction false} FirstFound(names: seq<string>, name: string)
    ensures First(names, name) < |names| ==> names[First(names, name)] == name
  {
    if names != [] && names[0] != name {
      FirstFound(names[1..], name);
    }
  }

  lemma PolarityTouchesOne(d: Door, name: string, activeLow: Option<bool>, actor: string, env: Env)
    ensures var s, after := First(SensorNames(d.sensors), name), Dispatcher.SetDoorPolarity(d, name, activeLow, actor, env).0;
            || after.sensors == d.sensors
            || (s < |d.sensors| && activeLow.Some?
                && after.sensors == d.sensors[s := DoorSensor.WithPolarity(d.sensors[s], activeLow.value, env.now)])
  {
  }

  lemma OtherPolaritySensors(d: Door, name: string, activeLow: Option<bool>, actor: string, env: Env, door: string)
    requires name != door
    ensures DoorKept(d.sensors, Dispatcher.SetDoorPolarity(d, name, activeLow, actor, env).0.sensors, door)
  {
    PolarityTouchesOne(d, name, activeLow, actor, env);
    FirstFound(SensorNames(d.sensors), name);
  }

  lemma OtherPolarityMessages(d: Door, name: string, activeLow: Option<bool>, actor: string, env: Env, door: string)
    requires name != door
    ensures PublishedFor(Dispatcher.SetDoorPolarity(d, name, activeLow, actor, env).0.mqtt, door) == PublishedFor(d.mqtt, door)
  {
    var s := First(SensorNames(d.sensors), name);
    if activeLow.Some? && s < |d.sensors| {
      var told := [DoorStateIs(name, DoorSensor.WithPolarity(d.sensors[s], activeLow.value, env.now).state)];
      PublishedAppend(d.mqtt, told, door);
      assert PublishedFor(told, door) == [];
    }
  }

  /** Only a change of its polarity makes a command publish a door's state or change its sensor. */
  lemma CommandMessages(d: Door, command: Command, actor: string, env: Env, door: string)
    requires command.SetDoorPolarity? ==> command.door != door
    ensures var after := RunCommand(d, command, actor, env).0;
            PublishedFor(after.mqtt, door) == PublishedFor(d.mqtt, door) && DoorKept(d.sensors, after.sensors, door)
  {
    match command
    case UnlockDoor => NoDoorPublished(d.mqtt, [LockStateIs(UNLOCKED), Alert(WEB_UNLOCK, "", actor)], door);
    case LockDoor => NoDoorPublished(d.mqtt, [LockStateIs(LOCKED)], door);
    case SetDoorPolarity(name, activeLow) =>
      OtherPolaritySensors(d, name, activeLow, actor, env, door);
      OtherPolarityMessages(d, name, activeLow, actor, env, door);
    case AddTag(uid, name) =>
      AddTagAlerts(d, uid, name, actor, env);
      AlertedPublished(d.mqtt, Dispatcher.AddTag(d, uid, name, actor, env).0.mqtt, door);
    case RemoveTag(uid) =>
      RemoveTagAlerts(d, uid, actor, env);
      AlertedPublished(d.mqtt, Dispatcher.RemoveTag(d, uid, actor, env).0.mqtt, door);
    case _ =>
  }

  lemma CaptureAlerts(d: Door, uid: string, env: Env)
    ensures var after := CaptureTag(d, uid, env);
            Alerted(d.mqtt, after.mqtt) && after.sensors == d.sensors
  {
  }

  lemma NfcMessages(d: Door, uid: string, env: Env, door: string)
    ensures var after := HandleNfc(d, uid, env);
            PublishedFor(after.mqtt, door) == PublishedFor(d.mqtt, door) && after.sensors == d.sensors
  {
    var scanned := Published(d, TagScanned(uid));
    NoDoorPublished(d.mqtt, [TagScanned(uid)], door);
    if d.enroll.armed {
      CaptureAlerts(scanned, uid, env);
      AlertedPublished(scanned.mqtt, CaptureTag(scanned, uid, env).mqtt, door);
    } else if uid in d.config.authorized {
      var name := d.config.authorized[uid];
      NoDoorPublished(scanned.mqtt, [LockStateIs(UNLOCKED), LastAccess(uid, name, true), Alert(ACCESS_GRANTED, uid, name)], door);
    } else {
      NoDoorPublished(scanned.mqtt, [LastAccess(uid, "Unknown", false), Alert(ACCESS_DENIED, uid, "Unknown")], door);
    }
  }

  /** The request to change the polarity of `door`. */
  predicate AsksPolarity(e: Event, door: string) {
    e.WebCommand? && e.request.Object? && e.request.command.SetDoorPolarity? && e.request.command.door == door
  }

  lemma DispatchMessages(d: Door, e: Event, env: Env, door: string)
    requires !AsksPolarity(e, door)
    ensures var after := Dispatch(d, e, env).0;
            && DoorKept(d.sensors, after.sensors, door)
            && PublishedFor(after.mqtt, door) == PublishedFor(d.mqtt, door) + QueuedFor([e], door)
  {
    match e
    case NfcUid(uid) => NfcMessages(d, uid, env, door);
    case WebCommand(Object(command, actor), _) => CommandMessages(d, command, Clip(actor, 64), env, door);
    case WebCommand(NotAnObject, _) =>
    case ButtonPress => NoDoorPublished(d.mqtt, [LockStateIs(UNLOCKED), Alert(BUTTON_UNLOCK, "", "")], door);
    case DoorState(name, state) =>
      PublishedAppend(d.mqtt, [DoorStateIs(name, state)], door);
      assert PublishedFor([DoorStateIs(name, state)], door) == QueuedFor([e], door);
    case DoorAlert(name, elapsed) => NoDoorPublished(d.mqtt, [DoorAlertIs(name, elapsed)], door);
    case UnlockTimerExpired(_) => NoDoorPublished(d.mqtt, [LockStateIs(LOCKED)], door);
  }

  // ----- What one step tells about a door.

  lemma PopTells(s: System, t: System, door: string)
    requires s.queue != [] && t.queue == s.queue[1..]
    requires PublishedFor(t.door.mqtt, door) == PublishedFor(s.door.mqtt, door) + QueuedFor([s.queue[0]], door)
    ensures Told(t, door) == Told(s, door)
  {
    assert s.queue == [s.queue[0]] + t.queue;
    QueuedAppend([s.queue[0]], t.queue, door);
  }

  lemma DispatchTells(s: System, fault: Option<Step>, logFails: bool, door: string)
    requires s.phase.Waiting? && s.queue != [] && !AsksPolarity(s.queue[0], door)
    ensures var t := DispatchHead(s, fault, logFails);
            Told(t, door) == Told(s, door) && DoorKept(s.door.sensors, t.door.sensors, door)
  {
    DispatchMessages(s.door, s.queue[0], Env(s.now, fault, logFails), door);
    PopTells(s, DispatchHead(s, fault, logFails), door);
  }

  lemma PutTells(s: System, t: System, e: Event, door: string)
    requires t.door.mqtt == s.door.mqtt && t.queue == Put(s.queue, e)
    ensures var news := if |s.queue| < QUEUE_CAPACITY && e.DoorState? && e.door == door then [e.state] else [];
            Told(t, door) == Told(s, door) + news
  {
    QueuedAppend(s.queue, [e], door);
    Assoc(PublishedFor(s.door.mqtt, door), QueuedFor(s.queue, door), QueuedFor([e], door));
  }

  /** What an action posts about `door`. */
  function PostOf(s: System, a: Action, door: string): seq<Reading>
    requires Enabled(s, a)
  {
    if a.EdgePost? && |s.queue| < QUEUE_CAPACITY && s.door.sensors[a.i].name == door then [s.posting[a.i]] else []
  }

  predicate Asks(s: System, a: Action, door: string) {
    a.DispatchNext? && s.queue != [] && AsksPolarity(s.queue[0], door)
  }

  lemma StepTells(s: System, a: Action, door: string)
    requires Enabled(s, a) && !Asks(s, a, door)
    ensures Told(Next(s, a), door) == Told(s, door) + PostOf(s, a, door)
  {
    if a.DispatchNext? {
      DispatchTells(s, a.fault, a.logFails, door);
    } else {
      StepFrame(s, a);
      if Puts(s, a).Some? {
        PutTells(s, Next(s, a), Puts(s, a).value, door);
      }
    }
  }

  /** The state that an action gives to sensor `i`, if it changes it. */
  function ChangeOf(s: System, a: Action, i: nat): seq<Reading>
    requires Enabled(s, a)
  {
    if a.EdgeSeen? && a.i == i && a.seen != s.door.sensors[i].state then [a.seen] else []
  }

  /** The sensors keep their names, and sensor `i` changes state only as `ChangeOf` says. */
  predicate Follows(s: System, a: Action, t: System, i: nat)
    requires Enabled(s, a) && i < |s.door.sensors|
  {
    && |t.door.sensors| == |s.door.sensors|
    && (forall j :: 0 <= j < |t.door.sensors| ==> t.door.sensors[j].name == s.door.sensors[j].name)
    && t.door.sensors[i].state == (if ChangeOf(s, a, i) == [] then s.door.sensors[i].state else ChangeOf(s, a, i)[0])
  }

  lemma MoveFollows(s: System, a: Action, i: nat)
    requires Enabled(s, a) && i < |s.door.sensors| && MovesSensor(a)
    ensures Follows(s, a, Next(s, a), i)
  {
    match a
    case PinChange(j, level) => assert Next(s, a) == WithSensor(s, j, s.door.sensors[j].(pin := level));
    case EdgeSeen(j, seen) => assert Next(s, a) == SeeEdge(s, j, seen);
    case PollSensor(j) => assert Next(s, a) == Poll(s, j);
  }

  lemma StepFollows(s: System, a: Action, i: nat)
    requires Enabled(s, a) && i < |s.door.sensors| && !Asks(s, a, s.door.sensors[i].name)
    ensures Follows(s, a, Next(s, a), i)
  {
    if a.DispatchNext? {
      DispatchTells(s, a.fault, a.logFails, s.door.sensors[i].name);
    } else if MovesSensor(a) {
      MoveFollows(s, a, i);
    } else {
      StepFrame(s, a);
    }
  }

  predicate DropsPost(s: System, a: Action, i: nat) {
    a == EdgePost(i) && |s.queue| >= QUEUE_CAPACITY
  }

  lemma StepPending(s: System, a: Action, i: nat)
    requires Enabled(s, a) && i < |s.door.sensors| && UniqueNames(s.door.sensors) && !DropsPost(s, a, i)
    ensures PostOf(s, a, s.door.sensors[i].name) + Pending(Next(s, a), i) == Pending(s, i) + ChangeOf(s, a, i)
  {
    if a.EdgePost? {
      assert s.door.sensors[a.i].name == s.door.sensors[i].name ==> a.i == i;
    } else if !a.EdgeSeen? {
      assert Next(s, a).posting == s.posting;
    }
  }

  lemma AnnouncesMore(s: System, t: System, i: nat, post: seq<Reading>, change: seq<Reading>)
    requires i < |s.door.sensors| && i < |t.door.sensors| && t.door.sensors[i].name == s.door.sensors[i].name
    requires Told(t, s.door.sensors[i].name) == Told(s, s.door.sensors[i].name) + post
    requires post + Pending(t, i) == Pending(s, i) + change
    ensures Announced(t, i) == Announced(s, i) + change
  {
    var told := Told(s, s.door.sensors[i].name);
    assert told + post + Pending(t, i) == told + (post + Pending(t, i));
    assert told + Pending(s, i) + change == told + (Pending(s, i) + change);
  }

  lemma StepAnnounces(s: System, a: Action, i: nat)
    requires Enabled(s, a) && i < |s.door.sensors| && UniqueNames(s.door.sensors)
    requires !Asks(s, a, s.door.sensors[i].name) && !DropsPost(s, a, i)
    ensures Follows(s, a, Next(s, a), i) && UniqueNames(Next(s, a).door.sensors)
    ensures Announced(Next(s, a), i) == Announced(s, i) + ChangeOf(s, a, i)
  {
    var name := s.door.sensors[i].name;
    StepFollows(s, a, i);
    StepTells(s, a, name);
    StepPending(s, a, i);
    AnnouncesMore(s, Next(s, a), i, PostOf(s, a, name), ChangeOf(s, a, i));
  }

  // ----- Whole runs.

  /** Not the dispatch of a request to change the polarity of `door`. */
  function Unasked(door: string): (System, Action) -> bool {
    (s: System, a: Action) => !Asks(s, a, door)
  }

  /** No state of sensor `i` is dropped by a full queue. */
  function Undropped(i: nat): (System, Action) -> bool {
    (s: System, a: Action) => !DropsPost(s, a, i)
  }

  /** What a run posts about `door`. */
  function Posts(s: System, actions: seq<Action>, door: string): seq<Reading>
    decreases |actions|
  {
    if actions == [] || !Enabled(s, actions[0]) then []
    else PostOf(s, actions[0], door) + Posts(Next(s, actions[0]), actions[1..], door)
  }

  /** The states that a run gives to sensor `i`. */
  function Changes(s: System, actions: seq<Action>, i: nat): seq<Reading>
    decreases |actions|
  {
    if actions == [] || !Enabled(s, actions[0]) then []
    else ChangeOf(s, actions[0], i) + Changes(Next(s, actions[0]), actions[1..], i)
  }

  lemma {:induction false} RunTells(s: System, actions: seq<Action>, t: System, door: string)
    requires Run(s, actions, t) && Throughout(s, actions, Unasked(door))
    ensures Told(t, door) == Told(s, door) + Posts(s, actions, door)
    decreases |actions|
  {
    if actions != [] {
      StepTells(s, actions[0], door);
      RunTells(Next(s, actions[0]), actions[1..], t, door);
    }
  }

  predicate Alternates(told: seq<Reading>) {
    forall k :: 0 < k < |told| ==> told[k] != told[k - 1]
  }

  /** What sensor `i` announced alternates, and ends with its state unless it is nothing. */
  predicate Sound(s: System, i: nat)
    requires i < |s.door.sensors|
  {
    Alternates(Announced(s, i)) && (Announced(s, i) == [] || Converges(s, i))
  }

  lemma StepConverges(s: System, a: Action, i: nat)
    requires Enabled(s, a) && i < |s.door.sensors| && UniqueNames(s.door.sensors)
    requires !Asks(s, a, s.door.sensors[i].name) && !DropsPost(s, a, i)
    ensures Follows(s, a, Next(s, a), i)
    ensures Converges(Next(s, a), i) <==> Converges(s, i) || ChangeOf(s, a, i) != []
    ensures Sound(s, i) ==> Sound(Next(s, a), i)
  {
    StepAnnounces(s, a, i);
    ToldMore(Announced(s, i), s.door.sensors[i].state, ChangeOf(s, a, i));
  }

  lemma ToldMore(told: seq<Reading>, state: Reading, change: seq<Reading>)
    requires |change| <= 1 && (change != [] ==> change[0] != state)
    ensures var after := if change == [] then state else change[0];
            && (EndsWith(told + change, after) <==> EndsWith(told, state) || change != [])
            && (Alternates(told) && (told == [] || EndsWith(told, state)) ==> Alternates(told + change))
  {
  }

  lemma {:induction false} RunAnnounces(s: System, actions: seq<Action>, t: System, i: nat)
    requires Run(s, actions, t) && i < |s.door.sensors| && UniqueNames(s.door.sensors)
    requires Throughout(s, actions, Unasked(s.door.sensors[i].name)) && Throughout(s, actions, Undropped(i))
    ensures i < |t.door.sensors| && t.door.sensors[i].name == s.door.sensors[i].name
    ensures Announced(t, i) == Announced(s, i) + Changes(s, actions, i)
    decreases |actions|
  {
    if actions != [] {
      var next, rest := Next(s, actions[0]), actions[1..];
      StepAnnounces(s, actions[0], i);
      RunAnnounces(next, rest, t, i);
      Assoc(Announced(s, i), ChangeOf(s, actions[0], i), Changes(next, rest, i));
    }
  }

  lemma {:induction false} RunConverges(s: System, actions: seq<Action>, t: System, i: nat)
    requires Run(s, actions, t) && i < |s.door.sensors| && UniqueNames(s.door.sensors)
    requires Throughout(s, actions, Unasked(s.door.sensors[i].name)) && Throughout(s, actions, Undropped(i))
    ensures i < |t.door.sensors| && t.door.sensors[i].name == s.door.sensors[i].name
    ensures Converges(t, i) <==> Converges(s, i) || Changes(s, actions, i) != []
    ensures Sound(s, i) ==> Sound(t, i)
    decreases |actions|
  {
    if actions != [] {
      StepAnnounces(s, actions[0], i);
      StepConverges(s, actions[0], i);
      RunConverges(Next(s, actions[0]), actions[1..], t, i);
    }
  }

  lemma {:induction false} RunKeepsSensor(s: System, actions: seq<Action>, t: System, i: nat)
    requires Run(s, actions, t) && i < |s.door.sensors| && Throughout(s, actions, Unasked(s.door.sensors[i].name))
    ensures i < |t.door.sensors| && t.door.sensors[i].name == s.door.sensors[i].name
    decreases |actions|
  {
    if actions != [] {
      StepFollows(s, actions[0], i);
      RunKeepsSensor(Next(s, actions[0]), actions[1..], t, i);
    }
  }

  lemma {:induction false} InitiallyQueued(sensors: seq<Sensor>, n: nat, i: nat)
    requires UniqueNames(sensors) && i < |sensors|
    ensures QueuedFor(Clip(InitialPosts(sensors), n), sensors[i].name) == if i < n then [sensors[i].state] else []
    decreases n
  {
    if n > 0 {
      assert Clip(InitialPosts(sensors), n)[1..] == Clip(InitialPosts(sensors[1..]), n - 1);
      if i > 0 {
        InitiallyQueued(sensors[1..], n - 1, i - 1);
      } else {
        NotQueued(sensors[1..], n - 1, sensors[0].name);
      }
    }
  }

  lemma {:induction false} NotQueued(sensors: seq<Sensor>, n: nat, name: string)
    requires forall i :: 0 <= i < |sensors| ==> sensors[i].name != name
    ensures QueuedFor(Clip(InitialPosts(sensors), n), name) == []
    decreases n
  {
    if n > 0 && sensors != [] {
      assert Clip(InitialPosts(sensors), n)[1..] == Clip(InitialPosts(sensors[1..]), n - 1);
      NotQueued(sensors[1..], n - 1, name);
    }
  }

  // ----- Main results.

  /** The state that sensor `i` announced at its start, unless the queue was full by then. */
  function FirstAnnounced(s: System, i: nat): seq<Reading>
    requires i < |s.door.sensors|
  {
    if i < QUEUE_CAPACITY then [s.door.sensors[i].state] else []
  }

  /** With unique door names and no polarity change of the door, in every run: what was published for a
      door and what is queued for it are, in order, exactly what was posted. When no post was dropped
      either, they and the post under way are the sensor's first state and every change since, they
      alternate, and once nothing is under way the last published state is the sensor's, unless it was
      never announced. */
  lemma PublishedStateConverges(s: System, setup: seq<real>, actions: seq<Action>, t: System, i: nat)
    requires Init(s, setup) && UniqueNames(s.door.sensors) && Run(s, actions, t) && i < |s.door.sensors|
    requires Throughout(s, actions, Unasked(s.door.sensors[i].name))
    ensures i < |t.door.sensors| && t.door.sensors[i].name == s.door.sensors[i].name
    ensures Told(t, t.door.sensors[i].name) == FirstAnnounced(s, i) + Posts(s, actions, t.door.sensors[i].name)
    ensures Throughout(s, actions, Undropped(i)) ==>
              && Announced(t, i) == FirstAnnounced(s, i) + Changes(s, actions, i) && Alternates(Announced(t, i))
              && (Drained(t, i) ==> (ShownRight(t, i) <==> Announced(t, i) != []))
  {
    FirstIsAnnounced(s, setup, i);
    RunTells(s, actions, t, s.door.sensors[i].name);
    RunKeepsSensor(s, actions, t, i);
    if Throughout(s, actions, Undropped(i)) {
      RunAnnounces(s, actions, t, i);
      RunConverges(s, actions, t, i);
      if Drained(t, i) {
        DrainedShows(t, i);
      }
    }
  }

  lemma FirstIsAnnounced(s: System, setup: seq<real>, i: nat)
    requires Init(s, setup) && UniqueNames(s.door.sensors) && i < |s.door.sensors|
    ensures Told(s, s.door.sensors[i].name) == Announced(s, i) == FirstAnnounced(s, i)
    ensures Sound(s, i)
  {
    InitiallyQueued(s.door.sensors, QUEUE_CAPACITY, i);
  }

  /** From any state: short of a polarity change of the door or a dropped post, once nothing about it is
      under way Home Assistant shows what the sensor believes if and only if what was told or under way
      at the beginning ended so, or the sensor has changed since. */
  lemma SettledIff(s: System, actions: seq<Action>, t: System, i: nat)
    requires Run(s, actions, t) && i < |s.door.sensors| && UniqueNames(s.door.sensors)
    requires Throughout(s, actions, Unasked(s.door.sensors[i].name)) && Throughout(s, actions, Undropped(i))
    ensures i < |t.door.sensors| && t.door.sensors[i].name == s.door.sensors[i].name
    ensures Drained(t, i) ==> (ShownRight(t, i) <==> Converges(s, i) || Changes(s, actions, i) != [])
  {
    RunConverges(s, actions, t, i);
    if Drained(t, i) {
      DrainedShows(t, i);
    }
  }

  lemma DrainedShows(s: System, i: nat)
    requires i < |s.door.sensors| && Drained(s, i)
    ensures Announced(s, i) == PublishedFor(s.door.mqtt, s.door.sensors[i].name)
    ensures ShownRight(s, i) <==> Converges(s, i)
  {
  }

  // ----- A change of polarity.

  lemma {:induction false} FirstIsUnique(sensors: seq<Sensor>, i: nat)
    requires UniqueNames(sensors) && i < |sensors|
    ensures First(SensorNames(sensors), sensors[i].name) == i
  {
    if i > 0 {
      assert sensors[0].name != sensors[i].name;
      assert SensorNames(sensors)[1..] == SensorNames(sensors[1..]);
      FirstIsUnique(sensors[1..], i - 1);
    }
  }

  /** The head of the queue asks for a polarity of door `i` that it does not have. */
  predicate FlipsNext(s: System, i: nat, low: bool) {
    && s.phase.Waiting? && s.queue != [] && UniqueNames(s.door.sensors) && i < |s.door.sensors|
    && s.queue[0].WebCommand? && s.queue[0].request.Object?
    && s.queue[0].request.command == SetDoorPolarity(s.door.sensors[i].name, Some(low))
    && var e := First(DoorNames(s.door.config.doors), s.door.sensors[i].name);
       e < |s.door.config.doors| && Polarity(s.door.config.doors[e].activeLow) != low
  }

  /** `t` follows `s` by giving sensor `i` a new polarity and publishing what it reads then. */
  predicate Flips(s: System, t: System, i: nat, low: bool) {
    && s.queue != [] && t.queue == s.queue[1..] && t.posting == s.posting && i < |s.door.sensors|
    && var flipped := DoorSensor.WithPolarity(s.door.sensors[i], low, s.now);
       t.door.sensors == s.door.sensors[i := flipped]
       && t.door.mqtt == s.door.mqtt + [DoorStateIs(s.door.sensors[i].name, flipped.state)]
  }

  lemma FlipPublishes(d: Door, e: Event, env: Env, i: nat, low: bool)
    requires i < |d.sensors| && First(SensorNames(d.sensors), d.sensors[i].name) == i && env.fault.None?
    requires e.WebCommand? && e.request.Object? && e.request.command == SetDoorPolarity(d.sensors[i].name, Some(low))
    requires var k := First(DoorNames(d.config.doors), d.sensors[i].name);
             k < |d.config.doors| && Polarity(d.config.doors[k].activeLow) != low
    ensures var after, flipped := Dispatch(d, e, env).0, DoorSensor.WithPolarity(d.sensors[i], low, env.now);
            && after.sensors == d.sensors[i := flipped]
            && after.mqtt == d.mqtt + [DoorStateIs(d.sensors[i].name, flipped.state)]
  {
  }

  lemma FlipHead(s: System, logFails: bool, i: nat, low: bool)
    requires FlipsNext(s, i, low)
    ensures Flips(s, DispatchHead(s, None, logFails), i, low)
  {
    FirstIsUnique(s.door.sensors, i);
    FlipPublishes(s.door, s.queue[0], Env(s.now, None, logFails), i, low);
  }

  /** What is still to be published for door `i` once the head of the queue is gone. */
  function UnderWay(s: System, i: nat): seq<Reading>
    requires s.queue != [] && i < |s.door.sensors|
  {
    QueuedFor(s.queue[1..], s.door.sensors[i].name) + Pending(s, i)
  }

  lemma LastWins(told: seq<Reading>, state: Reading, rest: seq<Reading>)
    ensures EndsWith(told + [state] + rest, state) <==> rest == [] || EndsWith(rest, state)
  {
  }

  lemma FlipIff(s: System, t: System, i: nat, low: bool)
    requires Flips(s, t, i, low)
    ensures |t.door.sensors| == |s.door.sensors|
    ensures Converges(t, i) <==> StaysRight(s, i, low)
  {
    var name, state := s.door.sensors[i].name, t.door.sensors[i].state;
    var before := PublishedFor(s.door.mqtt, name);
    PublishedAppend(s.door.mqtt, [DoorStateIs(name, state)], name);
    assert PublishedFor([DoorStateIs(name, state)], name) == [state];
    Assoc(before + [state], QueuedFor(t.queue, name), Pending(t, i));
    assert Announced(t, i) == before + [state] + UnderWay(s, i);
    LastWins(before, state, UnderWay(s, i));
  }

  lemma FlipKeepsNames(s: System, t: System, i: nat, low: bool)
    requires Flips(s, t, i, low) && UniqueNames(s.door.sensors)
    ensures UniqueNames(t.door.sensors) && |t.door.sensors| == |s.door.sensors|
    ensures t.door.sensors[i].name == s.door.sensors[i].name
  {
  }

  lemma FlipSettles(s: System, u: System, i: nat, low: bool, actions: seq<Action>, t: System)
    requires Flips(s, u, i, low) && UniqueNames(s.door.sensors) && Run(u, actions, t)
    requires Throughout(u, actions, Unasked(s.door.sensors[i].name)) && Throughout(u, actions, Undropped(i))
    ensures i < |t.door.sensors| && t.door.sensors[i].name == s.door.sensors[i].name
    ensures Drained(t, i) ==> (ShownRight(t, i) <==> StaysRight(s, i, low) || Changes(u, actions, i) != [])
  {
    FlipKeepsNames(s, u, i, low);
    FlipIff(s, u, i, low);
    SettledIff(u, actions, t, i);
  }

  /** Nothing about door `i` is under way behind the head of the queue, or the last of it is what its
      sensor reads under the polarity `low`. */
  predicate StaysRight(s: System, i: nat, low: bool)
    requires s.queue != [] && i < |s.door.sensors|
  {
    UnderWay(s, i) == [] || EndsWith(UnderWay(s, i), DoorSensor.Read(s.door.sensors[i].(activeLow := low)))
  }

  /** A polarity change that goes through publishes the new state at once, ahead of what is queued or
      about to be posted. Whatever the service does next, short of another change of that polarity or a
      dropped post, once nothing about the door is under way Home Assistant shows what the sensor
      believes if and only if nothing was under way when the command ran, or the last of it was what
      the sensor reads under the new polarity, or the sensor has changed since. */
  lemma PolarityConvergesIff(s: System, logFails: bool, i: nat, low: bool, actions: seq<Action>, t: System)
    requires FlipsNext(s, i, low) && Run(DispatchHead(s, None, logFails), actions, t)
    requires Throughout(DispatchHead(s, None, logFails), actions, Unasked(s.door.sensors[i].name))
    requires Throughout(DispatchHead(s, None, logFails), actions, Undropped(i))
    ensures i < |t.door.sensors| && t.door.sensors[i].name == s.door.sensors[i].name
    ensures Drained(t, i) ==>
              (ShownRight(t, i) <==> StaysRight(s, i, low) || Changes(DispatchHead(s, None, logFails), actions, i) != [])
  {
    FlipHead(s, logFails, i, low);
    FlipSettles(s, DispatchHead(s, None, logFails), i, low, actions, t);
  }

  // ----- The lock's state as Home Assistant knows it.

  /** The last lock state published, if any. */
  function LastLock(mqtt: seq<Message>): Option<LockState> {
    if mqtt == [] then None
    else
      var last := mqtt[|mqtt| - 1];
      if last.LockStateIs? then Some(last.lock) else LastLock(mqtt[..|mqtt| - 1])
  }

  /** Nothing about the lock was published while it never changed; otherwise its state is. */
  predicate LockPublished(d: Door) {
    d.lock.state == match LastLock(d.mqtt) case None => LOCKED case Some(state) => state
  }

  predicate NoLock(ms: seq<Message>) {
    forall i :: 0 <= i < |ms| ==> !ms[i].LockStateIs?
  }

  lemma {:induction false} NoNews(a: seq<Message>, ms: seq<Message>)
    requires NoLock(ms)
    ensures LastLock(a + ms) == LastLock(a)
    decreases |ms|
  {
    if ms == [] {
      assert a + ms == a;
    } else {
      assert (a + ms)[..|a + ms| - 1] == a + ms[..|ms| - 1];
      NoNews(a, ms[..|ms| - 1]);
    }
  }

  lemma News(a: seq<Message>, ms: seq<Message>)
    requires ms != [] && ms[0].LockStateIs? && NoLock(ms[1..])
    ensures LastLock(a + ms) == Some(ms[0].lock)
  {
    assert a + ms == a + [ms[0]] + ms[1..];
    NoNews(a + [ms[0]], ms[1..]);
  }

  lemma CaptureNews(d: Door, uid: string, env: Env)
    ensures LastLock(CaptureTag(d, uid, env).mqtt) == LastLock(d.mqtt)
  {
    CaptureAlerts(d, uid, env);
  }

  lemma NfcNews(d: Door, uid: string, env: Env)
    ensures LastLock(HandleNfc(d, uid, env).mqtt)
         == if !d.enroll.armed && uid in d.config.authorized then Some(UNLOCKED) else LastLock(d.mqtt)
  {
    var scanned := Published(d, TagScanned(uid));
    NoNews(d.mqtt, [TagScanned(uid)]);
    if d.enroll.armed {
      CaptureNews(scanned, uid, env);
    } else if uid in d.config.authorized {
      var name := d.config.authorized[uid];
      News(scanned.mqtt, [LockStateIs(UNLOCKED), LastAccess(uid, name, true), Alert(ACCESS_GRANTED, uid, name)]);
    } else {
      NoNews(scanned.mqtt, [LastAccess(uid, "Unknown", false), Alert(ACCESS_DENIED, uid, "Unknown")]);
    }
  }

  /** At most one message more, and none about the lock. */
  predicate OneMore(a: seq<Message>, b: seq<Message>) {
    b == a || (b != [] && !b[|b| - 1].LockStateIs? && b[..|b| - 1] == a)
  }

  lemma DoorNews(d: Door, door: string, activeLow: Option<bool>, actor: string, env: Env)
    ensures OneMore(d.mqtt, Dispatcher.SetDoorPolarity(d, door, activeLow, actor, env).0.mqtt)
  {
  }

  lemma CommandNews(d: Door, command: Command, actor: string, env: Env)
    ensures LastLock(RunCommand(d, command, actor, env).0.mqtt)
         == if command.UnlockDoor? then Some(UNLOCKED) else if command.LockDoor? then Some(LOCKED) else LastLock(d.mqtt)
  {
    match command
    case UnlockDoor => News(d.mqtt, [LockStateIs(UNLOCKED), Alert(WEB_UNLOCK, "", actor)]);
    case LockDoor => News(d.mqtt, [LockStateIs(LOCKED)]);
    case AddTag(uid, name) => AddTagAlerts(d, uid, name, actor, env);
    case RemoveTag(uid) => RemoveTagAlerts(d, uid, actor, env);
    case SetDoorPolarity(door, activeLow) => DoorNews(d, door, activeLow, actor, env);
    case _ =>
  }

  lemma DispatchNews(d: Door, e: Event, env: Env)
    ensures LastLock(Dispatch(d, e, env).0.mqtt)
         == if Unlocks(d, e) then Some(UNLOCKED) else if Locks(e) then Some(LOCKED) else LastLock(d.mqtt)
  {
    match e
    case NfcUid(uid) => NfcNews(d, uid, env);
    case WebCommand(Object(command, actor), _) => CommandNews(d, command, Clip(actor, 64), env);
    case WebCommand(NotAnObject, _) =>
    case ButtonPress => News(d.mqtt, [LockStateIs(UNLOCKED), Alert(BUTTON_UNLOCK, "", "")]);
    case DoorState(door, state) => NoNews(d.mqtt, [DoorStateIs(door, state)]);
    case DoorAlert(door, elapsed) => NoNews(d.mqtt, [DoorAlertIs(door, elapsed)]);
    case UnlockTimerExpired(_) => News(d.mqtt, [LockStateIs(LOCKED)]);
  }

  lemma StepKeepsLockPublished(s: System, a: Action)
    requires LockPublished(s.door) && Enabled(s, a)
    ensures LockPublished(Next(s, a).door)
  {
    if a.DispatchNext? {
      DispatchNews(s.door, s.queue[0], Env(s.now, a.fault, a.logFails));
      DispatchLock(s.door, s.queue[0], Env(s.now, a.fault, a.logFails));
    }
  }

  lemma {:induction false} RunKeepsLockPublished(s: System, actions: seq<Action>, t: System)
    requires LockPublished(s.door) && Run(s, actions, t)
    ensures LockPublished(t.door)
    decreases |actions|
  {
    if actions != [] {
      StepKeepsLockPublished(s, actions[0]);
      RunKeepsLockPublished(Next(s, actions[0]), actions[1..], t);
    }
  }

  /** In every reachable state the last lock state published is the lock's state; before any was
      published the lock is locked. */
  lemma LockStateIsPublished(s: System, setup: seq<real>, actions: seq<Action>, t: System)
    requires Init(s, setup) && Run(s, actions, t)
    ensures LockPublished(t.door)
  {
    RunKeepsLockPublished(s, actions, t);
  }
}
