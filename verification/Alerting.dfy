/** Each sensor inside the running service behaves as the sensor on its own: whatever the other
    threads do, its state is that of a run of edges, polls and polarity changes. */
module Alerting {
  import opened Basics
  import opened Events
  import opened ConfigFile
  import opened Dispatcher
  import opened DoorSystem
  import opened DoorSensor
  import Publishing

  /** The polarity that dispatching `e` gives to sensor `i`, if it gives it one. */
  function NewPolarity(d: Door, e: Event, env: Env, i: nat): Option<bool> {
    if e.WebCommand? && e.request.Object? && e.request.command.SetDoorPolarity? then
      var response := RunCommand(d, e.request.command, Clip(e.request.actor, 64), env).1;
      if response.Ok? && response.result.DoorPolarityIs? && response.result.state.Some?
         && First(SensorNames(d.sensors), e.request.command.door) == i
      then Some(response.result.activeLow) else None
    else None
  }

  /** What one action means to sensor `i`. */
  function MovesOf(s: System, a: Action, i: nat): seq<Moment>
    requires Enabled(s, a)
  {
    match a
    case PinChange(j, level) => if i == j then [Moment(s.now, Pin(level))] else []
    case EdgeSeen(j, seen) => if i == j then [Moment(s.now, Edge(seen))] else []
    case PollSensor(j) => if i == j then [Moment(s.now, Move.Poll)] else []
    case DispatchNext(fault, logFails) =>
      var low := NewPolarity(s.door, s.queue[0], Env(s.now, fault, logFails), i);
      if low.Some? then [Moment(s.now, Polarity(low.value))] else []
    case _ => []
  }

  function MomentsOf(s: System, actions: seq<Action>, i: nat): seq<Moment>
    decreases |actions|
  {
    if actions == [] || !Enabled(s, actions[0]) then []
    else MovesOf(s, actions[0], i) + MomentsOf(Next(s, actions[0]), actions[1..], i)
  }

  lemma PolarityMoves(d: Door, door: string, activeLow: Option<bool>, actor: string, env: Env, i: nat)
    requires i < |d.sensors|
    ensures var (after, response) := Dispatcher.SetDoorPolarity(d, door, activeLow, actor, env);
            && |after.sensors| == |d.sensors|
            && after.sensors[i] == if response.Ok? && response.result.DoorPolarityIs? && response.result.state.Some?
                                      && First(SensorNames(d.sensors), door) == i
                                   then WithPolarity(d.sensors[i], response.result.activeLow, env.now) else d.sensors[i]
  {
  }

  lemma CommandSensors(d: Door, command: Command, actor: string, env: Env)
    requires !command.SetDoorPolarity?
    ensures RunCommand(d, command, actor, env).0.sensors == d.sensors
  {
  }

  lemma DispatchMoves(d: Door, e: Event, env: Env, i: nat)
    requires i < |d.sensors|
    ensures var after, low := Dispatch(d, e, env).0, NewPolarity(d, e, env, i);
            && |after.sensors| == |d.sensors|
            && after.sensors[i] == if low.Some? then WithPolarity(d.sensors[i], low.value, env.now) else d.sensors[i]
  {
    match e
    case WebCommand(Object(command, actor), _) =>
      match command {
        case SetDoorPolarity(door, activeLow) => PolarityMoves(d, door, activeLow, Clip(actor, 64), env, i);
        case _ => CommandSensors(d, command, Clip(actor, 64), env);
      }
    case _ =>
  }

  lemma OneMove(t: Sensor, m: Moment)
    ensures After(t, [m]) == Moved(t, m)
  {
    assert [m][..0] == [];
  }

  lemma OwnMoves(s: System, a: Action, i: nat)
    requires Enabled(s, a) && i < |s.door.sensors| && MovesSensor(a)
    ensures i < |Next(s, a).door.sensors|
    ensures Next(s, a).door.sensors[i] == After(s.door.sensors[i], MovesOf(s, a, i))
  {
    match a
    case PinChange(_, level) => OneMove(s.door.sensors[i], Moment(s.now, Pin(level)));
    case EdgeSeen(_, seen) => OneMove(s.door.sensors[i], Moment(s.now, Edge(seen)));
    case PollSensor(_) => OneMove(s.door.sensors[i], Moment(s.now, Move.Poll));
  }

  lemma StepMoves(s: System, a: Action, i: nat)
    requires Enabled(s, a) && i < |s.door.sensors|
    ensures i < |Next(s, a).door.sensors|
    ensures Next(s, a).door.sensors[i] == After(s.door.sensors[i], MovesOf(s, a, i))
  {
    if MovesSensor(a) {
      OwnMoves(s, a, i);
    } else if a.DispatchNext? {
      var env := Env(s.now, a.fault, a.logFails);
      DispatchMoves(s.door, s.queue[0], env, i);
      var low := NewPolarity(s.door, s.queue[0], env, i);
      if low.Some? {
        OneMove(s.door.sensors[i], Moment(s.now, Polarity(low.value)));
      }
    } else {
      StepFrame(s, a);
    }
  }

  lemma {:induction false} AfterAppend(s: Sensor, a: seq<Moment>, b: seq<Moment>)
    ensures After(s, a + b) == After(After(s, a), b)
  {
    if b == [] {
      assert a + b == a;
    } else {
      assert (a + b)[..|a + b| - 1] == a + b[..|b| - 1];
      AfterAppend(s, a, b[..|b| - 1]);
    }
  }

  /** A moment before an ordered run, at the right time. */
  lemma OrderedCons(start: real, m: Moment, run: seq<Moment>)
    requires start <= m.at && InOrder(m.at, run)
    ensures InOrder(start, [m] + run)
  {
    var all := [m] + run;
    forall i | 0 <= i < |all|
      ensures TimeBefore(start, all, i) <= all[i].at
    {
      if i > 0 {
        assert TimeBefore(m.at, run, i - 1) <= run[i - 1].at;
      }
    }
  }

  lemma {:induction false} RunMoves(s: System, actions: seq<Action>, t: System, i: nat, start: real)
    requires Run(s, actions, t) && i < |s.door.sensors| && start <= s.now
    ensures i < |t.door.sensors| && t.door.sensors[i] == After(s.door.sensors[i], MomentsOf(s, actions, i))
    ensures Definite(MomentsOf(s, actions, i)) && InOrder(start, MomentsOf(s, actions, i))
    decreases |actions|
  {
    if actions != [] {
      var moves, u := MovesOf(s, actions[0], i), Next(s, actions[0]);
      var rest := MomentsOf(u, actions[1..], i);
      StepMoves(s, actions[0], i);
      AfterAppend(s.door.sensors[i], moves, rest);
      if moves == [] {
        RunMoves(u, actions[1..], t, i, start);
        assert moves + rest == rest;
      } else {
        RunMoves(u, actions[1..], t, i, s.now);
        assert moves == [moves[0]];
        OrderedCons(start, moves[0], rest);
      }
    }
  }

  /** In every run of the service each sensor goes through an ordered run of its own, from the state its
      setup left, so everything proved of such runs holds of it: it is open exactly when an opening time
      is recorded, and has alerted only if it is open. */
  lemma SensorsRunOnTheirOwn(s: System, setup: seq<real>, actions: seq<Action>, t: System, i: nat)
    requires Init(s, setup) && Run(s, actions, t) && i < |s.door.sensors|
    ensures var moments := MomentsOf(s, actions, i);
            && i < |t.door.sensors| && t.door.sensors[i] == After(s.door.sensors[i], moments)
            && Fresh(s.door.sensors[i], setup[i]) && Definite(moments) && InOrder(setup[i], moments)
    ensures Coherent(t.door.sensors[i])
  {
    RunMoves(s, actions, t, i, setup[i]);
    AlwaysCoherent(s.door.sensors[i], setup[i], MomentsOf(s, actions, i));
  }

  /** What is published is what the wire says: with unique names, no polarity change of the door, no post
      of it dropped, callbacks that act on the pin as it is, one of them since the pin last changed, and
      nothing under way, Home Assistant was last told what the pin reads now. */
  lemma PublishedIsPin(s: System, setup: seq<real>, actions: seq<Action>, t: System, i: nat)
    requires Init(s, setup) && Publishing.UniqueNames(s.door.sensors) && Run(s, actions, t)
    requires i < |s.door.sensors| && i < QUEUE_CAPACITY
    requires Throughout(s, actions, Publishing.Unasked(s.door.sensors[i].name))
    requires Throughout(s, actions, Publishing.Undropped(i))
    requires Live(s.door.sensors[i], MomentsOf(s, actions, i))
    requires Settled(s.door.sensors[i], MomentsOf(s, actions, i), |MomentsOf(s, actions, i)|)
    ensures i < |t.door.sensors|
    ensures Publishing.Drained(t, i) ==>
              Publishing.EndsWith(Publishing.PublishedFor(t.door.mqtt, t.door.sensors[i].name), Read(t.door.sensors[i]))
  {
    var moments := MomentsOf(s, actions, i);
    SensorsRunOnTheirOwn(s, setup, actions, t, i);
    assert moments[..|moments|] == moments;
    StateIsPin(s.door.sensors[i], setup[i], moments, |moments|);
    Publishing.PublishedStateConverges(s, setup, actions, t, i);
  }
}
