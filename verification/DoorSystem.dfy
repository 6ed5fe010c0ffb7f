/** The door service as a concurrent system: relock timers, the button, the NFC reader, the door
    sensors and the control socket feed one bounded queue that a single dispatcher empties. A run is
    any interleaving of their actions. */
module DoorSystem {
  import opened Basics
  import opened Events
  import opened ConfigFile
  import opened LockController
  import opened Uid
  import opened Dispatcher
  import DoorSensor

  /** Where the event loop is: at its head, or waiting for an event since it last looked at the clock. */
  datatype Phase = AtHead | Waiting(since: real) | Stopped

  /** The control socket serves one connection at a time. */
  datatype Socket = Idle | Serving(conn: nat) | Awaiting(conn: nat, since: real)

  /** What a connection is sent. */
  datatype Answer = Refused | Busy | Result(response: Response) | ServiceTimeout

  datatype Sent = Sent(conn: nat, answer: Answer)

  datatype Exec = Exec(conn: nat, request: Request, response: Response)

  /** A relock timer: when its unlock ran, when it is due, and the expiries of earlier timers that
      were already on their way then. */
  datatype Started = Started(at: real, due: real, stale: set<nat>)

  /** The steps of the enrollment dialogue. `head` is when the event loop last looked at the deadline,
      `stored` the name that the scanned tag was enrolled under before, and `fault` the step at which
      saving it would fail. */
  datatype Act =
    | ArmedAt(at: real, name: string, actor: string)
    | CancelledAt(at: real)
    | ExpiredAt(at: real)
    | CapturedAt(at: real, head: real, uid: string, stored: Option<string>, fault: Option<Step>, outcome: Option<Capture>)
    | HandedAt(at: real, outcome: Option<Capture>)

  /** What happened so far. `dropped` maps a timer whose expiry found the queue full to the queue's
      length then. */
  datatype History = History(started: map<nat, Started>, dropped: map<nat, nat>, acts: seq<Act>,
                             accepted: map<nat, Request>, executed: seq<Exec>, sent: seq<Sent>, fullReplies: nat)

  /** `firing` holds the timers that have passed their cancellation check and not yet posted, and
      `posting` the new state of each sensor whose edge callback has left its critical section and not
      yet posted. */
  datatype System = System(now: real, queue: seq<Event>, door: Door, firing: set<nat>, posting: map<nat, Reading>,
                           phase: Phase, socket: Socket, nextConn: nat, slots: map<nat, Option<Response>>,
                           h: History)

  datatype Action =
    | Tick(to: real)
    | TimerDue(id: nat)
    | TimerPost(id: nat)
    | PressButton
    | PresentCard(bytes: seq<Byte>)
    | PinChange(i: nat, level: Level)
    | EdgeSeen(i: nat, seen: Reading)
    | EdgePost(i: nat)
    | PollSensor(i: nat)
    | Accept
    | Refuse
    | HangUp
    | Submit(request: Request)
    | Reply
    | GiveUp
    | LoopHead
    | LoopIdle
    | DispatchNext(fault: Option<Step>, logFails: bool)
    | Shutdown

  const REPLY_TIMEOUT := 5.0

  predicate Enabled(s: System, a: Action) {
    match a
    case Tick(to) => s.now <= to
    case TimerDue(id) => id in s.door.lock.pending && s.door.lock.pending[id] <= s.now
    case TimerPost(id) => id in s.firing
    case PressButton => true
    case PresentCard(bytes) => bytes != []
    case PinChange(i, _) => i < |s.door.sensors|
    case EdgeSeen(i, seen) => i < |s.door.sensors| && seen != UNKNOWN && i !in s.posting
    case EdgePost(i) => i < |s.door.sensors| && i in s.posting
    case PollSensor(i) => i < |s.door.sensors|
    case Accept => s.socket.Idle?
    case Refuse => s.socket.Serving?
    case HangUp => s.socket.Serving?
    case Submit(_) => s.socket.Serving?
    case Reply => s.socket.Awaiting? && s.socket.conn in s.slots && s.slots[s.socket.conn].Some?
    case GiveUp => s.socket.Awaiting? && s.socket.since + REPLY_TIMEOUT <= s.now
                   && s.socket.conn in s.slots && s.slots[s.socket.conn].None?
    case LoopHead => s.phase.AtHead?
    case LoopIdle => s.phase.Waiting? && s.queue == []
    case DispatchNext(_, _) => s.phase.Waiting? && s.queue != []
    case Shutdown => s.phase.AtHead?
  }

  function QueuedTimers(queue: seq<Event>): set<nat> {
    set e | e in queue && e.UnlockTimerExpired? :: e.timer
  }

  function SendTo(s: System, answer: Answer): System
    requires !s.socket.Idle?
  {
    s.(socket := Idle, h := s.h.(sent := s.h.sent + [Sent(s.socket.conn, answer)]))
  }

  function PostExpiry(s: System, id: nat): System {
    s.(firing := s.firing - {id}, queue := Put(s.queue, UnlockTimerExpired(id)),
       h := if |s.queue| < QUEUE_CAPACITY then s.h else s.h.(dropped := s.h.dropped[id := |s.queue|]))
  }

  function WithSensor(s: System, i: nat, sensor: Sensor): System
    requires i < |s.door.sensors|
  {
    s.(door := s.door.(sensors := s.door.sensors[i := sensor]))
  }

  /** The critical section of an edge callback. */
  function SeeEdge(s: System, i: nat, seen: Reading): System
    requires i < |s.door.sensors|
  {
    var moved := WithSensor(s, i, DoorSensor.Observed(s.door.sensors[i], seen, s.now));
    if seen == s.door.sensors[i].state then moved else moved.(posting := s.posting[i := seen])
  }

  /** What an edge callback does after its critical section. */
  function PostEdge(s: System, i: nat): System
    requires i < |s.door.sensors| && i in s.posting
  {
    s.(posting := s.posting - {i}, queue := Put(s.queue, DoorState(s.door.sensors[i].name, s.posting[i])))
  }

  function Poll(s: System, i: nat): System
    requires i < |s.door.sensors|
  {
    var sensor := s.door.sensors[i];
    var moved := WithSensor(s, i, DoorSensor.Polled(sensor, s.now));
    if DoorSensor.AlertDue(sensor, s.now)
    then moved.(queue := Put(s.queue, DoorAlert(sensor.name, s.now - sensor.openSince.value)))
    else moved
  }

  function SubmitRequest(s: System, request: Request): System
    requires s.socket.Serving?
  {
    var conn := s.socket.conn;
    if |s.queue| < QUEUE_CAPACITY then
      s.(queue := s.queue + [WebCommand(request, conn)], socket := Awaiting(conn, s.now),
         slots := s.slots[conn := None], h := s.h.(accepted := s.h.accepted[conn := request]))
    else SendTo(s, Busy)
  }

  /** The name that a tag is enrolled under, if it is. */
  function Stored(d: Door, uid: string): Option<string> {
    if uid in d.config.authorized then Some(d.config.authorized[uid]) else None
  }

  /** What one dispatch adds to the enrollment dialogue. */
  function ActsOf(before: Door, e: Event, after: Door, response: Option<Response>, fault: Option<Step>,
                  now: real, head: real): seq<Act>
  {
    if e.NfcUid? then
      if before.enroll.armed then
        [CapturedAt(now, head, e.uid, Stored(before, e.uid), fault, after.enroll.result)]
      else []
    else if e.WebCommand? && e.request.Object? then
      match e.request.command
      case ArmEnroll(_) => [ArmedAt(now, after.enroll.name, after.enroll.actor)]
      case CancelEnroll => [CancelledAt(now)]
      case EnrollStatus =>
        if response.Some? && response.value.Ok? && response.value.result.EnrollState?
        then [HandedAt(now, response.value.result.capture)] else []
      case _ => []
    else []
  }

  function Executions(e: Event, response: Option<Response>): seq<Exec> {
    if e.WebCommand? && response.Some? then [Exec(e.conn, e.request, response.value)] else []
  }

  /** The dispatcher puts its response in the connection's reply slot, unless that is full. */
  predicate SlotFree(s: System, e: Event) {
    e.WebCommand? && e.conn in s.slots && s.slots[e.conn].None?
  }

  function DispatchHead(s: System, fault: Option<Step>, logFails: bool): System
    requires s.phase.Waiting? && s.queue != []
  {
    var e, rest, lock := s.queue[0], s.queue[1..], s.door.lock;
    var (door, response) := Dispatch(s.door, e, Env(s.now, fault, logFails));
    var started :=
      if lock.nextTimer in door.lock.pending && lock.nextTimer != door.lock.nextTimer
      then s.h.started[lock.nextTimer := Started(s.now, door.lock.pending[lock.nextTimer], s.firing + QueuedTimers(rest))]
      else s.h.started;
    var lost := response.Some? && !SlotFree(s, e);
    s.(queue := rest, door := door, phase := AtHead,
       slots := if response.Some? && SlotFree(s, e) then s.slots[e.conn := Some(response.value)] else s.slots,
       h := s.h.(started := started,
                 acts := s.h.acts + ActsOf(s.door, e, door, response, fault, s.now, s.phase.since),
                 executed := s.h.executed + Executions(e, response),
                 fullReplies := s.h.fullReplies + (if lost then 1 else 0)))
  }

  function TurnHead(s: System): System {
    var door := ExpireEnroll(s.door, s.now);
    s.(phase := Waiting(s.now), door := door,
       h := if door == s.door then s.h else s.h.(acts := s.h.acts + [ExpiredAt(s.now)]))
  }

  function Next(s: System, a: Action): System
    requires Enabled(s, a)
  {
    match a
    case Tick(to) => s.(now := to)
    case TimerDue(id) =>
      s.(door := s.door.(lock := s.door.lock.(pending := s.door.lock.pending - {id})), firing := s.firing + {id})
    case TimerPost(id) => PostExpiry(s, id)
    case PressButton => s.(queue := Put(s.queue, ButtonPress))
    case PresentCard(bytes) => s.(queue := Put(s.queue, NfcUid(Hex(bytes))))
    case PinChange(i, level) => WithSensor(s, i, s.door.sensors[i].(pin := level))
    case EdgeSeen(i, seen) => SeeEdge(s, i, seen)
    case EdgePost(i) => PostEdge(s, i)
    case PollSensor(i) => Poll(s, i)
    case Accept => s.(socket := Serving(s.nextConn), nextConn := s.nextConn + 1)
    case Refuse => SendTo(s, Refused)
    case HangUp => s.(socket := Idle)
    case Submit(request) => SubmitRequest(s, request)
    case Reply => SendTo(s, Result(s.slots[s.socket.conn].value))
    case GiveUp => SendTo(s, ServiceTimeout)
    case LoopHead => TurnHead(s)
    case LoopIdle => s.(phase := AtHead)
    case DispatchNext(fault, logFails) => DispatchHead(s, fault, logFails)
    case Shutdown => s.(phase := Stopped, door := s.door.(lock := CleanedUp(s.door.lock)))
  }

  /** What an action other than a dispatch puts in the queue, if there is room. */
  function Puts(s: System, a: Action): Option<Event>
    requires Enabled(s, a)
  {
    match a
    case TimerPost(id) => Some(UnlockTimerExpired(id))
    case PressButton => Some(ButtonPress)
    case PresentCard(bytes) => Some(NfcUid(Hex(bytes)))
    case EdgePost(i) => Some(DoorState(s.door.sensors[i].name, s.posting[i]))
    case PollSensor(i) =>
      var sensor := s.door.sensors[i];
      if DoorSensor.AlertDue(sensor, s.now) then Some(DoorAlert(sensor.name, s.now - sensor.openSince.value)) else None
    case Submit(request) => Some(WebCommand(request, s.socket.conn))
    case _ => None
  }

  predicate MovesSensor(a: Action) {
    a.PinChange? || a.EdgeSeen? || a.PollSensor?
  }

  /** What an action other than a dispatch leaves alone. */
  predicate Framed(s: System, a: Action, t: System)
    requires Enabled(s, a)
  {
    && t.queue == (if Puts(s, a).Some? then Put(s.queue, Puts(s, a).value) else s.queue)
    && t.door == s.door.(lock := t.door.lock, sensors := t.door.sensors, enroll := t.door.enroll)
    && (!a.TimerDue? && !a.Shutdown? ==> t.door.lock == s.door.lock)
    && (!MovesSensor(a) ==> t.door.sensors == s.door.sensors)
    && (!a.LoopHead? ==> t.door.enroll == s.door.enroll && t.h.acts == s.h.acts)
    && (!a.LoopHead? && t.phase.Waiting? ==> t.phase == s.phase)
    && t.h.started == s.h.started && (if a.Tick? then s.now <= t.now else t.now == s.now)
  }

  lemma DeviceFrame(s: System, a: Action)
    requires Enabled(s, a) && (MovesSensor(a) || a.TimerDue? || a.TimerPost? || a.PressButton? || a.PresentCard? || a.EdgePost?)
    ensures Framed(s, a, Next(s, a))
  {
  }

  lemma StepFrame(s: System, a: Action)
    requires Enabled(s, a) && !a.DispatchNext?
    ensures Framed(s, a, Next(s, a))
  {
    if MovesSensor(a) || a.TimerDue? || a.TimerPost? || a.PressButton? || a.PresentCard? || a.EdgePost? {
      DeviceFrame(s, a);
    }
  }

  /** One turn of the program's loop is the two steps of the system. */
  lemma TurnIsTwoSteps(s: System, fault: Option<Step>, logFails: bool)
    requires s.phase.AtHead? && s.queue != []
    ensures DispatchHead(TurnHead(s), fault, logFails).door
         == LoopTurn(s.door, Turn(s.now, Some(s.queue[0]), Env(s.now, fault, logFails)))
  {
  }

  function InitialPosts(sensors: seq<Sensor>): seq<Event> {
    seq(|sensors|, i requires 0 <= i < |sensors| => DoorState(sensors[i].name, sensors[i].state))
  }

  /** The service once every sensor is started: the configuration is what the file holds, the lock and
      the sensors were built from it, and each sensor has posted its state, of which a full queue keeps
      the first. */
  predicate Init(s: System, setup: seq<real>) {
    var c, entries := s.door.config, SensorEntries(s.door.config);
    && Holds(s.door.disk, c)
    && s.door.lock == LockData(c.activeLowRelay, c.unlockDuration, LOCKED, None,
                               RelayLevel(c.activeLowRelay, LOCKED), LOW, map[], 0, false)
    && |s.door.sensors| == |entries| == |setup|
    && (forall i :: 0 <= i < |entries| ==>
          && s.door.sensors[i] == DoorSensor.Installed(entries[i].name, s.door.sensors[i].threshold,
                                                       Polarity(entries[i].activeLow), s.door.sensors[i].pin, setup[i])
          && setup[i] <= s.now)
    && s.door.enroll == Enroll(false, 0.0, "", "", None)
    && s.door.log == [] && s.door.mqtt == []
    && s.queue == Clip(InitialPosts(s.door.sensors), QUEUE_CAPACITY)
    && s.firing == {} && s.posting == map[] && s.phase == AtHead && s.socket == Idle && s.nextConn == 0 && s.slots == map[]
    && s.h == History(map[], map[], [], map[], [], [], 0)
  }

  ghost predicate Run(s: System, actions: seq<Action>, t: System)
    decreases |actions|
  {
    if actions == [] then s == t
    else Enabled(s, actions[0]) && Run(Next(s, actions[0]), actions[1..], t)
  }

  /** The state that a run reaches; a run stops at the first action that cannot happen. */
  function Reached(s: System, actions: seq<Action>): System
    decreases |actions|
  {
    if actions == [] || !Enabled(s, actions[0]) then s else Reached(Next(s, actions[0]), actions[1..])
  }

  function Dispatches(actions: seq<Action>): nat {
    if actions == [] then 0 else (if actions[0].DispatchNext? then 1 else 0) + Dispatches(actions[1..])
  }

  lemma {:induction false} RunAppend(s: System, first: seq<Action>, t: System, second: seq<Action>, u: System)
    requires Run(s, first, t) && Run(t, second, u)
    ensures Run(s, first + second, u)
    decreases |first|
  {
    if first == [] {
      assert first + second == second;
    } else {
      assert (first + second)[1..] == first[1..] + second;
      RunAppend(Next(s, first[0]), first[1..], t, second, u);
    }
  }

  /** Every action of the run is `ok` where it happens. */
  ghost predicate Throughout(s: System, actions: seq<Action>, ok: (System, Action) -> bool)
    decreases |actions|
  {
    actions != [] && Enabled(s, actions[0]) ==> ok(s, actions[0]) && Throughout(Next(s, actions[0]), actions[1..], ok)
  }

  lemma {:induction false} ThroughoutAppend(s: System, first: seq<Action>, t: System, second: seq<Action>,
                                            ok: (System, Action) -> bool)
    requires Run(s, first, t) && Throughout(s, first, ok) && Throughout(t, second, ok)
    ensures Throughout(s, first + second, ok)
    decreases |first|
  {
    if first == [] {
      assert first + second == second;
    } else {
      assert (first + second)[1..] == first[1..] + second;
      ThroughoutAppend(Next(s, first[0]), first[1..], t, second, ok);
    }
  }

  lemma One(s: System, a: Action) returns (t: System)
    requires Enabled(s, a)
    ensures t == Next(s, a) && Run(s, [a], t)
  {
    t := Next(s, a);
    assert Run(t, [], t);
  }

  // ----- What a dispatch does to the lock.

  predicate Unlocks(d: Door, e: Event) {
    match e
    case NfcUid(uid) => !d.enroll.armed && uid in d.config.authorized
    case ButtonPress => true
    case WebCommand(Object(UnlockDoor, _), _) => true
    case _ => false
  }

  predicate Locks(e: Event) {
    match e
    case UnlockTimerExpired(_) => true
    case WebCommand(Object(LockDoor, _), _) => true
    case _ => false
  }

  predicate SameTimers(a: Lock, b: Lock) {
    && a.state == b.state && a.timer == b.timer && a.pending == b.pending && a.nextTimer == b.nextTimer
    && a.released == b.released
  }

  lemma SavingLock(d: Door, command: Command, actor: string, env: Env)
    requires Saves(command)
    ensures var lock := RunCommand(d, command, actor, env).0.lock;
            SameTimers(lock, d.lock) && (Encoded(d.lock) ==> Encoded(lock))
  {
  }

  lemma CommandLock(d: Door, command: Command, actor: string, env: Env)
    ensures var lock := RunCommand(d, command, actor, env).0.lock;
            match command
            case UnlockDoor => lock == Unlocked(d.lock, None, env.now)
            case LockDoor => lock == Locked(d.lock)
            case _ => SameTimers(lock, d.lock) && (Encoded(d.lock) ==> Encoded(lock))
  {
    if Saves(command) {
      SavingLock(d, command, actor, env);
    }
  }

  lemma NfcLock(d: Door, uid: string, env: Env)
    ensures HandleNfc(d, uid, env).lock
         == if !d.enroll.armed && uid in d.config.authorized then Unlocked(d.lock, None, env.now) else d.lock
  {
  }

  lemma DispatchLock(d: Door, e: Event, env: Env)
    ensures var lock := Dispatch(d, e, env).0.lock;
            && (Unlocks(d, e) ==> lock == Unlocked(d.lock, None, env.now))
            && (Locks(e) ==> lock == Locked(d.lock))
            && (!Unlocks(d, e) && !Locks(e) ==> SameTimers(lock, d.lock) && (Encoded(d.lock) ==> Encoded(lock)))
  {
    match e
    case NfcUid(uid) => NfcLock(d, uid, env);
    case WebCommand(Object(command, actor), _) => CommandLock(d, command, Clip(actor, 64), env);
    case _ =>
  }
}
