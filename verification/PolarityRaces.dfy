/** Two ways in which a change of a door's polarity leaves a stale state published. */
module PolarityRaces {
  import opened Basics
  import opened Events
  import opened ConfigFile
  import opened LockController
  import opened Dispatcher
  import opened DoorSystem
  import opened Publishing
  import DoorSensor

  function Booted(): System {
    var c := Config(map[], 5.0, true, [DoorEntry("left", None)], None);
    var lock := LockData(true, 5.0, LOCKED, None, HIGH, LOW, map[], 0, false);
    var door := Door(lock, [DoorSensor.Installed("left", 30.0, true, HIGH, 0.0)], c, Disk(File(Whole(c), true), None),
                     Enroll(false, 0.0, "", "", None), true, [], []);
    System(0.0, [DoorState("left", CLOSED)], door, {}, map[], AtHead, Idle, 0, map[],
           History(map[], map[], [], map[], [], [], 0))
  }

  lemma BootedIsInitial()
    ensures Init(Booted(), [0.0]) && UniqueNames(Booted().door.sensors)
  {
  }

  const FLIP := WebCommand(Object(SetDoorPolarity("left", Some(false)), "admin"), 0)

  lemma InitialStatePublished() returns (actions: seq<Action>, t: System)
    ensures Run(Booted(), actions, t) && t.phase.AtHead? && t.queue == [] && t.posting == map[]
    ensures t.socket.Idle? && t.nextConn == 0
    ensures t.door.config == Booted().door.config && t.door.sensors == Booted().door.sensors
  {
    var awake := One(Booted(), LoopHead);
    t := One(awake, DispatchNext(None, false));
    RunAppend(Booted(), [LoopHead], awake, [DispatchNext(None, false)], t);
    actions := [LoopHead] + [DispatchNext(None, false)];
  }

  lemma FlipIsQueued(s: System) returns (actions: seq<Action>, t: System)
    requires s.phase.AtHead? && s.queue == [] && s.socket.Idle? && s.nextConn == 0
    ensures Run(s, actions, t)
    ensures t.phase.AtHead? && t.queue == [FLIP] && t.posting == s.posting && t.door == s.door
  {
    var s1 := One(s, Accept);
    t := One(s1, Submit(FLIP.request));
    actions := [Accept] + [Submit(FLIP.request)];
    RunAppend(s, [Accept], s1, [Submit(FLIP.request)], t);
  }

  /** The door has opened and its callback has recorded that, while a polarity change is queued. */
  predicate Opened(s: System) {
    && |s.door.sensors| == 1 && s.door.sensors[0].name == "left" && s.door.sensors[0].pin == LOW
    && s.door.config == Booted().door.config
  }

  lemma EdgeDuringFlip(s: System) returns (actions: seq<Action>, t: System)
    requires s.phase.AtHead? && s.queue == [FLIP] && s.posting == map[]
    requires s.door.config == Booted().door.config && s.door.sensors == Booted().door.sensors
    ensures Run(s, actions, t)
    ensures t.phase.AtHead? && t.queue == [FLIP] && t.posting == map[0 := OPEN] && Opened(t)
  {
    var s1 := One(s, PinChange(0, LOW));
    t := One(s1, EdgeSeen(0, OPEN));
    actions := [PinChange(0, LOW)] + [EdgeSeen(0, OPEN)];
    RunAppend(s, [PinChange(0, LOW)], s1, [EdgeSeen(0, OPEN)], t);
  }

  lemma BootToEdge() returns (actions: seq<Action>, t: System)
    ensures Run(Booted(), actions, t)
    ensures t.phase.AtHead? && t.queue == [FLIP] && t.posting == map[0 := OPEN] && Opened(t)
  {
    var first, quiet := InitialStatePublished();
    var second, asked := FlipIsQueued(quiet);
    RunAppend(Booted(), first, quiet, second, asked);
    var third;
    third, t := EdgeDuringFlip(asked);
    actions := first + second + third;
    RunAppend(Booted(), first + second, asked, third, t);
  }

  lemma FlipStep(s: System)
    requires s.phase.Waiting? && s.queue != [] && s.queue[0] == FLIP && Opened(s)
    requires QueuedFor(s.queue[1..], "left") + Pending(s, 0) == [OPEN]
    ensures var t := DispatchHead(s, None, false);
            && t.queue == s.queue[1..] && t.posting == s.posting && t.phase.AtHead?
            && |t.door.sensors| == 1 && t.door.sensors[0].name == "left" && !Converges(t, 0)
  {
    assert DoorNames(s.door.config.doors) == ["left"];
    FlipHead(s, false, 0, false);
    FlipIff(s, DispatchHead(s, None, false), 0, false);
    assert UnderWay(s, 0) == [OPEN];
  }

  /** The flip publishes CLOSED while the OPEN seen before it is still under way. */
  lemma FlipMisleads(s: System) returns (actions: seq<Action>, t: System)
    requires s.phase.AtHead? && s.queue != [] && s.queue[0] == FLIP && Opened(s)
    requires QueuedFor(s.queue[1..], "left") + Pending(s, 0) == [OPEN]
    ensures Run(s, actions, t) && t.phase.AtHead? && t.queue == s.queue[1..] && t.posting == s.posting
    ensures |t.door.sensors| == 1 && t.door.sensors[0].name == "left" && !Converges(t, 0)
  {
    var awake := One(s, LoopHead);
    FlipStep(awake);
    t := One(awake, DispatchNext(None, false));
    RunAppend(s, [LoopHead], awake, [DispatchNext(None, false)], t);
    actions := [LoopHead] + [DispatchNext(None, false)];
  }

  lemma PostEdgeRun(s: System) returns (t: System)
    requires s.posting == map[0 := OPEN] && |s.queue| < QUEUE_CAPACITY && |s.door.sensors| == 1 && s.door.sensors[0].name == "left"
    ensures Run(s, [EdgePost(0)], t)
    ensures t.phase == s.phase && t.queue == s.queue + [DoorState("left", OPEN)] && t.posting == map[] && t.door == s.door
    ensures !Converges(s, 0) ==> !Converges(t, 0)
  {
    t := One(s, EdgePost(0));
    StepAnnounces(s, EdgePost(0), 0);
  }

  lemma EdgeIsPublished(s: System) returns (actions: seq<Action>, t: System)
    requires s.phase.AtHead? && s.queue == [DoorState("left", OPEN)] && s.posting == map[]
    requires |s.door.sensors| == 1 && s.door.sensors[0].name == "left" && !Converges(s, 0)
    ensures Run(s, actions, t) && t.queue == [] && t.posting == map[] && |t.door.sensors| == 1 && !ShownRight(t, 0)
  {
    var awake := One(s, LoopHead);
    t := One(awake, DispatchNext(None, false));
    RunAppend(s, [LoopHead], awake, [DispatchNext(None, false)], t);
    actions := [LoopHead] + [DispatchNext(None, false)];
    StepAnnounces(s, LoopHead, 0);
    StepAnnounces(awake, DispatchNext(None, false), 0);
    DrainedShows(t, 0);
  }

  /** The edge is queued behind the flip. The flip publishes CLOSED, the edge publishes OPEN, and with
      nothing under way Home Assistant shows an open door that the sensor reads as closed. */
  lemma PolarityCanMislead() returns (s: System, actions: seq<Action>, t: System)
    ensures Init(s, [0.0]) && UniqueNames(s.door.sensors) && Run(s, actions, t)
    ensures t.queue == [] && t.posting == map[] && |t.door.sensors| == 1 && !ShownRight(t, 0)
  {
    s := Booted();
    BootedIsInitial();
    var first, edge := BootToEdge();
    var waiting := PostEdgeRun(edge);
    RunAppend(s, first, edge, [EdgePost(0)], waiting);
    assert QueuedFor(waiting.queue[1..], "left") == [OPEN];
    var second, flipped := FlipMisleads(waiting);
    RunAppend(s, first + [EdgePost(0)], waiting, second, flipped);
    var third;
    third, t := EdgeIsPublished(flipped);
    actions := first + [EdgePost(0)] + second + third;
    RunAppend(s, first + [EdgePost(0)] + second, flipped, third, t);
  }

  /** The same with nothing of the door queued when the flip runs: its callback has changed the state,
      and posts only after the flip. */
  lemma PendingPostCanMislead() returns (s: System, before: seq<Action>, u: System, actions: seq<Action>, t: System)
    ensures Init(s, [0.0]) && UniqueNames(s.door.sensors) && Run(s, before, u) && Run(u, actions, t)
    ensures u.queue == [FLIP]
    ensures t.queue == [] && t.posting == map[] && |t.door.sensors| == 1 && !ShownRight(t, 0)
  {
    s := Booted();
    BootedIsInitial();
    before, u := BootToEdge();
    var first, flipped := FlipMisleads(u);
    var posted := PostEdgeRun(flipped);
    RunAppend(u, first, flipped, [EdgePost(0)], posted);
    var second;
    second, t := EdgeIsPublished(posted);
    actions := first + [EdgePost(0)] + second;
    RunAppend(u, first + [EdgePost(0)], posted, second, t);
  }
}
