/** Enrollment over whole runs: the dialogue of arms, scans, expiries, cancellations and status polls
    is well formed under every interleaving. */
module Enrollment {
  import opened Basics
  import opened Events
  import opened LockController
  import opened Dispatcher
  import opened DoorSystem
  import opened Effects
  import ConfigFile
  import Relock
  import Uid

  function Outcome(a: Act): Option<Capture> {
    match a
    case CapturedAt(_, _, _, _, _, outcome) => outcome
    case ExpiredAt(_) => Some(TimedOut)
    case _ => None
  }

  /** Between the arm at `h` and position `i` there were only status polls, which had nothing to hand over. */
  ghost predicate ArmedThroughout(acts: seq<Act>, h: nat, i: nat)
    requires i <= |acts|
  {
    && h < i && acts[h].ArmedAt?
    && forall k :: h < k < i ==> acts[k] == HandedAt(acts[k].at, None)
  }

  /** How a scan with the reader armed under `name` ends: `stored` is the name that its tag had before, and
      `fault` the step at which saving it fails. */
  predicate OutcomeOf(outcome: Capture, uid: string, name: string, stored: Option<string>, fault: Option<ConfigFile.Step>) {
    match outcome
    case Already(u, n) => u == uid && stored == Some(n)
    case NotSaved(u) => u == uid && stored.None? && fault.Some?
    case Added(u, n) => u == uid && stored.None? && fault.None? && NamedAs(name, uid, n)
    case TimedOut => false
  }

  /** How each act is accounted for by the acts before it. A capture or an expiry ends the latest arm,
      which nothing ended before; the capture is of a scan that the event loop was waiting for before
      the arm's deadline, under that arm's name; the expiry comes after it. A poll hands over exactly
      the outcome that immediately precedes it. */
  ghost predicate Accounted(acts: seq<Act>, i: nat)
    requires i < |acts|
  {
    match acts[i]
    case CapturedAt(at, head, uid, stored, fault, outcome) =>
      outcome.Some? && exists h :: 0 <= h < i && ArmedThroughout(acts, h, i) && head <= acts[h].at + ENROLL_WINDOW_SECONDS
                         && OutcomeOf(outcome.value, uid, acts[h].name, stored, fault)
    case ExpiredAt(at) =>
      exists h :: 0 <= h < i && ArmedThroughout(acts, h, i) && at > acts[h].at + ENROLL_WINDOW_SECONDS
    case HandedAt(_, outcome) =>
      outcome == (if i == 0 then None else Outcome(acts[i - 1]))
    case _ => true
  }

  ghost predicate AllAccounted(acts: seq<Act>) {
    forall i :: 0 <= i < |acts| ==> Accounted(acts, i)
  }

  /** The run-time state is what the dialogue so far says it should be. */
  ghost predicate Tracks(e: Enroll, acts: seq<Act>) {
    && e.result == (if acts == [] then None else Outcome(acts[|acts| - 1]))
    && (e.armed ==> exists h :: 0 <= h < |acts| && ArmedThroughout(acts, h, |acts|)
                       && acts[h].name == e.name && acts[h].actor == e.actor
                       && e.deadline == acts[h].at + ENROLL_WINDOW_SECONDS)
    && (!e.armed ==> e.deadline == 0.0)
  }

  ghost predicate Inv(s: System) {
    && AllAccounted(s.h.acts)
    && Tracks(s.door.enroll, s.h.acts)
    && (s.phase.Waiting? && s.door.enroll.armed ==> s.phase.since <= s.door.enroll.deadline)
  }

  lemma ArmedThroughoutGrows(acts: seq<Act>, a: Act, h: nat, i: nat)
    requires i <= |acts| && ArmedThroughout(acts, h, i)
    ensures ArmedThroughout(acts + [a], h, i)
    ensures i == |acts| && a == HandedAt(a.at, None) ==> ArmedThroughout(acts + [a], h, i + 1)
  {
  }

  lemma AccountedGrows(acts: seq<Act>, a: Act)
    requires AllAccounted(acts) && Accounted(acts + [a], |acts|)
    ensures AllAccounted(acts + [a])
  {
    forall i | 0 <= i < |acts|
      ensures Accounted(acts + [a], i)
    {
      assert Accounted(acts, i);
      if acts[i].CapturedAt? || acts[i].ExpiredAt? {
        var h :| 0 <= h < i && ArmedThroughout(acts, h, i)
                 && (acts[i].CapturedAt? ==>
                       && acts[i].head <= acts[h].at + ENROLL_WINDOW_SECONDS
                       && OutcomeOf(acts[i].outcome.value, acts[i].uid, acts[h].name, acts[i].stored, acts[i].fault))
                 && (acts[i].ExpiredAt? ==> acts[i].at > acts[h].at + ENROLL_WINDOW_SECONDS);
        ArmedThroughoutGrows(acts, a, h, i);
      }
    }
  }

  /** A scan with the reader armed is captured: it disarms the reader, never touches the lock, and its
      outcome is decided by whether its tag was stored and whether the save works. What is reported as
      added is in memory and in the file, and nothing else changes the tags. */
  lemma ArmedScanIsCaptured(d: Door, uid: string, env: Env)
    requires d.enroll.armed
    ensures var after := HandleNfc(d, uid, env);
            && after.lock == d.lock
            && after.enroll == d.enroll.(armed := false, deadline := 0.0, result := after.enroll.result)
            && after.enroll.result.Some? && OutcomeOf(after.enroll.result.value, uid, d.enroll.name, Stored(d, uid), env.fault)
            && (if after.enroll.result.value.Added?
                then TagsBecome(d, after, d.config.authorized[uid := after.enroll.result.value.name])
                else NothingSaved(d, after))
  {
    CaptureEffect(d, uid, env);
  }

  lemma CaptureKeepsInv(s: System, fault: Option<ConfigFile.Step>, logFails: bool)
    requires Inv(s) && s.phase.Waiting? && s.queue != [] && s.queue[0].NfcUid? && s.door.enroll.armed
    ensures Inv(DispatchHead(s, fault, logFails))
  {
    var t, acts := DispatchHead(s, fault, logFails), s.h.acts;
    var uid := s.queue[0].uid;
    ArmedScanIsCaptured(s.door, uid, Env(s.now, fault, logFails));
    var a := CapturedAt(s.now, s.phase.since, uid, Stored(s.door, uid), fault, t.door.enroll.result);
    assert t.h.acts == acts + [a];
    var h :| 0 <= h < |acts| && ArmedThroughout(acts, h, |acts|) && acts[h].name == s.door.enroll.name
             && s.door.enroll.deadline == acts[h].at + ENROLL_WINDOW_SECONDS;
    ArmedThroughoutGrows(acts, a, h, |acts|);
    assert Accounted(t.h.acts, |acts|);
    AccountedGrows(acts, a);
  }

  lemma CommandEnroll(d: Door, command: Command, actor: string, env: Env)
    ensures var (after, response) := RunCommand(d, command, actor, env);
            match command
            case ArmEnroll(name) => after.enroll == Enroll(true, env.now + ENROLL_WINDOW_SECONDS, Clip(name, 64), actor, None)
            case CancelEnroll => after.enroll == NotArmed(d.enroll).(result := None)
            case EnrollStatus => after.enroll == d.enroll.(result := None)
                                 && response == Ok(EnrollState(d.enroll.armed, Remaining(d.enroll, env.now), d.enroll.result))
            case _ => after.enroll == d.enroll
  {
  }

  lemma CommandKeepsInv(s: System, fault: Option<ConfigFile.Step>, logFails: bool)
    requires Inv(s) && s.phase.Waiting? && s.queue != [] && s.queue[0].WebCommand? && s.queue[0].request.Object?
    ensures Inv(DispatchHead(s, fault, logFails))
  {
    var t, acts := DispatchHead(s, fault, logFails), s.h.acts;
    var command, actor := s.queue[0].request.command, Clip(s.queue[0].request.actor, 64);
    CommandEnroll(s.door, command, actor, Env(s.now, fault, logFails));
    match command
    case ArmEnroll(name) =>
      var a := ArmedAt(s.now, Clip(name, 64), actor);
      assert t.h.acts == acts + [a];
      assert ArmedThroughout(t.h.acts, |acts|, |acts| + 1);
      AccountedGrows(acts, a);
    case CancelEnroll =>
      assert t.h.acts == acts + [CancelledAt(s.now)];
      AccountedGrows(acts, CancelledAt(s.now));
    case EnrollStatus =>
      var a := HandedAt(s.now, s.door.enroll.result);
      assert t.h.acts == acts + [a];
      assert Accounted(t.h.acts, |acts|);
      AccountedGrows(acts, a);
      if s.door.enroll.armed {
        var h :| 0 <= h < |acts| && ArmedThroughout(acts, h, |acts|) && acts[h].name == s.door.enroll.name
                 && acts[h].actor == s.door.enroll.actor
                 && s.door.enroll.deadline == acts[h].at + ENROLL_WINDOW_SECONDS;
        assert Outcome(acts[|acts| - 1]) == None;
        ArmedThroughoutGrows(acts, a, h, |acts|);
      }
    case _ => assert t.h.acts == acts;
  }

  lemma DispatchKeepsInv(s: System, fault: Option<ConfigFile.Step>, logFails: bool)
    requires Inv(s) && s.phase.Waiting? && s.queue != []
    ensures Inv(DispatchHead(s, fault, logFails))
  {
    match s.queue[0]
    case NfcUid(_) =>
      if s.door.enroll.armed {
        CaptureKeepsInv(s, fault, logFails);
      } else {
        assert DispatchHead(s, fault, logFails).h.acts == s.h.acts;
      }
    case WebCommand(Object(_, _), _) => CommandKeepsInv(s, fault, logFails);
    case _ => assert DispatchHead(s, fault, logFails).h.acts == s.h.acts;
  }

  lemma HeadKeepsInv(s: System)
    requires Inv(s) && s.phase.AtHead?
    ensures Inv(TurnHead(s))
  {
    var t, acts := TurnHead(s), s.h.acts;
    if s.door.enroll.armed && s.now > s.door.enroll.deadline {
      var a := ExpiredAt(s.now);
      assert t.h.acts == acts + [a];
      var h :| 0 <= h < |acts| && ArmedThroughout(acts, h, |acts|)
               && s.door.enroll.deadline == acts[h].at + ENROLL_WINDOW_SECONDS;
      ArmedThroughoutGrows(acts, a, h, |acts|);
      assert Accounted(t.h.acts, |acts|);
      AccountedGrows(acts, a);
    }
  }

  lemma StepKeepsInv(s: System, a: Action)
    requires Inv(s) && Enabled(s, a)
    ensures Inv(Next(s, a))
  {
    if a.DispatchNext? {
      DispatchKeepsInv(s, a.fault, a.logFails);
    } else if a.LoopHead? {
      HeadKeepsInv(s);
    } else {
      StepFrame(s, a);
    }
  }

  lemma {:induction false} RunKeepsInv(s: System, actions: seq<Action>, t: System)
    requires Inv(s) && Run(s, actions, t)
    ensures Inv(t)
    decreases |actions|
  {
    if actions != [] {
      StepKeepsInv(s, actions[0]);
      RunKeepsInv(Next(s, actions[0]), actions[1..], t);
    }
  }

  // ----- Main results.

  /** Every act of every run is accounted for, and the run-time state is what the dialogue says: armed
      means no stored outcome and a deadline one window after the arm, not armed means no deadline. */
  lemma DialogueIsAccounted(s: System, setup: seq<real>, actions: seq<Action>, t: System)
    requires Init(s, setup) && Run(s, actions, t)
    ensures AllAccounted(t.h.acts) && Tracks(t.door.enroll, t.h.acts)
    ensures t.door.enroll.armed ==> t.door.enroll.result.None?
  {
    RunKeepsInv(s, actions, t);
    if t.door.enroll.armed {
      ArmedHasNoResult(t.door.enroll, t.h.acts);
    }
  }

  lemma ArmedHasNoResult(e: Enroll, acts: seq<Act>)
    requires Tracks(e, acts) && e.armed
    ensures e.result.None?
  {
    var h :| 0 <= h < |acts| && ArmedThroughout(acts, h, |acts|);
    var last := acts[|acts| - 1];
    assert last.ArmedAt? || last == HandedAt(last.at, None);
  }

  /** Each outcome is handed over at most once, by the poll right after it and never across a new arm
      or a cancellation; and between two captures or expiries the reader was armed again. */
  lemma OutcomesAreHandedOnce(acts: seq<Act>, i: nat, j: nat)
    requires AllAccounted(acts) && i < j < |acts|
    ensures acts[i].HandedAt? && acts[i].outcome.Some? && acts[j].HandedAt? && acts[j].outcome.Some? ==>
              exists h :: i < h < j && acts[h].ArmedAt?
    ensures Outcome(acts[i]).Some? && Outcome(acts[j]).Some? ==> exists h :: i < h < j && acts[h].ArmedAt?
  {
    if acts[j].HandedAt? && acts[j].outcome.Some? && acts[i].HandedAt? && acts[i].outcome.Some? {
      assert Accounted(acts, j);
      assert Accounted(acts, j - 1);
      assert Accounted(acts, i);
      var h :| 0 <= h < j - 1 && ArmedThroughout(acts, h, j - 1);
      assert i < j - 1;
      assert h > i;
    }
    if Outcome(acts[i]).Some? && Outcome(acts[j]).Some? {
      assert Accounted(acts, j);
      var h :| 0 <= h < j && ArmedThroughout(acts, h, j);
      assert h > i;
    }
  }

  // ----- How late a scan may be captured.

  const QUEUE_WAIT := 1.0

  /** The event loop waits for an event no longer than its queue wait. */
  predicate Punctual(s: System, a: Action) {
    a.Tick? && s.phase.Waiting? ==> a.to <= s.phase.since + QUEUE_WAIT
  }

  ghost predicate Waits(s: System) {
    && (s.phase.Waiting? ==> s.now <= s.phase.since + QUEUE_WAIT)
    && forall i :: 0 <= i < |s.h.acts| && s.h.acts[i].CapturedAt? ==> s.h.acts[i].at <= s.h.acts[i].head + QUEUE_WAIT
  }

  lemma ActsOfDispatch(s: System, fault: Option<ConfigFile.Step>, logFails: bool)
    requires s.phase.Waiting? && s.queue != []
    ensures var acts := DispatchHead(s, fault, logFails).h.acts;
            && s.h.acts <= acts <= s.h.acts + acts[|s.h.acts|..] && |acts| <= |s.h.acts| + 1
            && (|acts| > |s.h.acts| && acts[|s.h.acts|].CapturedAt? ==>
                  acts[|s.h.acts|].at == s.now && acts[|s.h.acts|].head == s.phase.since)
  {
  }

  lemma StepWaits(s: System, a: Action)
    requires Waits(s) && Enabled(s, a) && Punctual(s, a)
    ensures Waits(Next(s, a))
  {
    if a.DispatchNext? {
      ActsOfDispatch(s, a.fault, a.logFails);
    } else if !a.LoopHead? {
      StepFrame(s, a);
    }
  }

  lemma {:induction false} RunWaits(s: System, actions: seq<Action>, t: System)
    requires Waits(s) && Run(s, actions, t) && Throughout(s, actions, Punctual)
    ensures Waits(t)
    decreases |actions|
  {
    if actions != [] {
      StepWaits(s, actions[0]);
      RunWaits(Next(s, actions[0]), actions[1..], t);
    }
  }

  /** In every run whose queue waits last at most a second, a scan is captured at most 61 seconds after
      the latest arm, which nothing ended before. */
  lemma CaptureIsPrompt(s: System, setup: seq<real>, actions: seq<Action>, t: System, i: nat) returns (h: nat)
    requires Init(s, setup) && Run(s, actions, t) && Throughout(s, actions, Punctual)
    requires i < |t.h.acts| && t.h.acts[i].CapturedAt?
    ensures h < i && ArmedThroughout(t.h.acts, h, i) && t.h.acts[i].at <= t.h.acts[h].at + 61.0
  {
    DialogueIsAccounted(s, setup, actions, t);
    RunWaits(s, actions, t);
    assert Accounted(t.h.acts, i);
    h :| 0 <= h < i && ArmedThroughout(t.h.acts, h, i) && t.h.acts[i].head <= t.h.acts[h].at + ENROLL_WINDOW_SECONDS;
  }

  /** In every reachable state in which the event loop waits with the reader armed and a scan comes
      next, the scan is captured, and it is captured after the window if and only if the loop looked at
      the clock within the window and the deadline has passed since. */
  lemma CaptureIsLateIff(s: System, setup: seq<real>, actions: seq<Action>, t: System,
                         fault: Option<ConfigFile.Step>, logFails: bool) returns (h: nat)
    requires Init(s, setup) && Run(s, actions, t)
    requires t.phase.Waiting? && t.queue != [] && t.queue[0].NfcUid? && t.door.enroll.armed
    ensures h < |t.h.acts| && ArmedThroughout(t.h.acts, h, |t.h.acts|)
    ensures var after := DispatchHead(t, fault, logFails);
            && !after.door.enroll.armed && after.door.enroll.result.Some?
            && after.h.acts == t.h.acts + [CapturedAt(t.now, t.phase.since, t.queue[0].uid, Stored(t.door, t.queue[0].uid), fault,
                                                      after.door.enroll.result)]
    ensures t.now > t.h.acts[h].at + ENROLL_WINDOW_SECONDS <==> t.phase.since <= t.door.enroll.deadline < t.now
  {
    RunKeepsInv(s, actions, t);
    h :| 0 <= h < |t.h.acts| && ArmedThroughout(t.h.acts, h, |t.h.acts|)
         && t.door.enroll.deadline == t.h.acts[h].at + ENROLL_WINDOW_SECONDS;
    ArmedScanIsCaptured(t.door, t.queue[0].uid, Env(t.now, fault, logFails));
  }

  /** An arm expires at the head of a turn if and only if its window is over by then. */
  lemma ExpiresIff(s: System)
    requires s.phase.AtHead? && s.door.enroll.armed
    ensures var awake := TurnHead(s);
            if s.now > s.door.enroll.deadline
            then awake.door.enroll == NotArmed(s.door.enroll).(result := Some(TimedOut)) && awake.h.acts == s.h.acts + [ExpiredAt(s.now)]
            else awake.door.enroll == s.door.enroll && awake.h.acts == s.h.acts
  {
  }

  // ----- The bound is reached.

  const ARM := WebCommand(Object(ArmEnroll("card"), "admin"), 0)

  lemma PunctualOne(s: System, a: Action) returns (t: System)
    requires Enabled(s, a) && Punctual(s, a)
    ensures t == Next(s, a) && Run(s, [a], t) && Throughout(s, [a], Punctual)
  {
    t := One(s, a);
    assert Throughout(t, [], Punctual);
  }

  lemma PunctualTwo(s: System, a: Action, b: Action) returns (t: System)
    requires Enabled(s, a) && Punctual(s, a) && Enabled(Next(s, a), b) && Punctual(Next(s, a), b)
    ensures t == Next(Next(s, a), b) && Run(s, [a, b], t) && Throughout(s, [a, b], Punctual)
  {
    var u := PunctualOne(s, a);
    t := PunctualOne(u, b);
    RunAppend(s, [a], u, [b], t);
    ThroughoutAppend(s, [a], u, [b], Punctual);
    assert [a] + [b] == [a, b];
  }

  lemma PunctualAppend(s: System, first: seq<Action>, t: System, second: seq<Action>, u: System)
    requires Run(s, first, t) && Throughout(s, first, Punctual) && Run(t, second, u) && Throughout(t, second, Punctual)
    ensures Run(s, first + second, u) && Throughout(s, first + second, Punctual)
  {
    RunAppend(s, first, t, second, u);
    ThroughoutAppend(s, first, t, second, Punctual);
  }

  /** Armed at time 0, with nothing else going on. */
  predicate JustArmed(s: System) {
    && s.now == 0.0 && s.phase.AtHead? && s.queue == [] && s.door.enroll == Enroll(true, 60.0, "card", "admin", None)
    && s.h.acts == [ArmedAt(0.0, "card", "admin")] && s.door.config.authorized == map[]
  }

  predicate Quiet(s: System) {
    s.now == 0.0 && s.phase.AtHead? && !s.door.enroll.armed && s.h.acts == [] && s.door.config.authorized == map[]
  }

  lemma BootIsQuiet() returns (t: System)
    ensures Run(Relock.Booted(), [LoopHead, DispatchNext(None, false)], t)
    ensures Throughout(Relock.Booted(), [LoopHead, DispatchNext(None, false)], Punctual)
    ensures Quiet(t) && t.queue == [] && t.socket.Idle? && t.nextConn == 0
  {
    t := PunctualTwo(Relock.Booted(), LoopHead, DispatchNext(None, false));
  }

  lemma ArmIsQueued(s: System) returns (t: System)
    requires Quiet(s) && s.queue == [] && s.socket.Idle? && s.nextConn == 0
    ensures Run(s, [Accept, Submit(ARM.request)], t) && Throughout(s, [Accept, Submit(ARM.request)], Punctual)
    ensures Quiet(t) && t.queue == [ARM]
  {
    t := PunctualTwo(s, Accept, Submit(ARM.request));
  }

  lemma ArmTheReader() returns (actions: seq<Action>, t: System)
    ensures Run(Relock.Booted(), actions, t) && Throughout(Relock.Booted(), actions, Punctual) && JustArmed(t)
  {
    var quiet := BootIsQuiet();
    var asked := ArmIsQueued(quiet);
    var turn, ask := [LoopHead, DispatchNext(None, false)], [Accept, Submit(ARM.request)];
    PunctualAppend(Relock.Booted(), turn, quiet, ask, asked);
    t := ArmDispatched(asked);
    PunctualAppend(Relock.Booted(), turn + ask, asked, turn, t);
    actions := turn + ask + turn;
  }

  lemma ArmArms(s: System)
    requires s.now == 0.0 && s.phase.Waiting? && s.queue == [ARM] && s.h.acts == [] && s.door.config.authorized == map[]
    ensures JustArmed(DispatchHead(s, None, false))
  {
    CommandEnroll(s.door, ARM.request.command, "admin", Env(0.0, None, false));
  }

  lemma ArmDispatched(s: System) returns (t: System)
    requires Quiet(s) && s.queue == [ARM]
    ensures Run(s, [LoopHead, DispatchNext(None, false)], t) && Throughout(s, [LoopHead, DispatchNext(None, false)], Punctual)
    ensures JustArmed(t)
  {
    ArmArms(TurnHead(s));
    t := PunctualTwo(s, LoopHead, DispatchNext(None, false));
  }

  lemma WaitFromDeadline(s: System) returns (t: System)
    requires JustArmed(s)
    ensures Run(s, [Tick(60.0), LoopHead], t) && Throughout(s, [Tick(60.0), LoopHead], Punctual)
    ensures t == s.(now := 60.0, phase := Waiting(60.0))
  {
    t := PunctualTwo(s, Tick(60.0), LoopHead);
  }

  lemma ScanArrives(s: System) returns (t: System)
    requires s.now == 60.0 && s.phase == Waiting(60.0) && s.queue == []
    ensures Run(s, [Tick(61.0), PresentCard([7])], t) && Throughout(s, [Tick(61.0), PresentCard([7])], Punctual)
    ensures t == s.(now := 61.0, queue := [NfcUid(Uid.Hex([7]))])
  {
    t := PunctualTwo(s, Tick(61.0), PresentCard([7]));
  }

  lemma ScanIsAdded(s: System)
    requires s.phase == Waiting(60.0) && s.now == 61.0 && s.queue == [NfcUid(Uid.Hex([7]))]
    requires s.door.enroll.armed && s.door.enroll.name == "card" && s.door.config.authorized == map[]
    ensures var t := DispatchHead(s, None, false);
            && t.h.acts == s.h.acts + [CapturedAt(61.0, 60.0, "07", None, None, Some(Added("07", "card")))]
            && t.door.config.authorized == map["07" := "card"] && ConfigFile.Holds(t.door.disk, t.door.config)
  {
    assert Uid.Hex([7]) == "07";
    ArmedScanIsCaptured(s.door, "07", Env(61.0, None, false));
    CardIsTrimmed();
  }

  lemma CardIsTrimmed()
    ensures Strip("card") == "card"
    ensures forall name, uid :: NamedAs("card", uid, name) ==> name == "card"
  {
    assert StripLeft("card") == "card" && StripRight("card") == "card";
  }

  lemma ScanAtTheLastMoment(s: System) returns (actions: seq<Action>, t: System)
    requires JustArmed(s)
    ensures Run(s, actions, t) && Throughout(s, actions, Punctual)
    ensures t.h.acts == s.h.acts + [CapturedAt(61.0, 60.0, "07", None, None, Some(Added("07", "card")))]
    ensures t.door.config.authorized == map["07" := "card"] && ConfigFile.Holds(t.door.disk, t.door.config)
  {
    var waiting := WaitFromDeadline(s);
    var scanned := ScanArrives(waiting);
    PunctualAppend(s, [Tick(60.0), LoopHead], waiting, [Tick(61.0), PresentCard([7])], scanned);
    actions := [Tick(60.0), LoopHead] + [Tick(61.0), PresentCard([7])];
    ScanIsAdded(scanned);
    t := PunctualOne(scanned, DispatchNext(None, false));
    PunctualAppend(s, actions, scanned, [DispatchNext(None, false)], t);
    actions := actions + [DispatchNext(None, false)];
  }

  /** The 61 seconds are reached: a reader armed at time 0 captures a scan at time 61, and the tag is
      enrolled in memory and in the file. */
  lemma LateCaptureHappens() returns (s: System, actions: seq<Action>, t: System)
    ensures Init(s, [0.0]) && Run(s, actions, t) && Throughout(s, actions, Punctual)
    ensures t.h.acts == [ArmedAt(0.0, "card", "admin"), CapturedAt(61.0, 60.0, "07", None, None, Some(Added("07", "card")))]
    ensures t.door.config.authorized == map["07" := "card"] && ConfigFile.Holds(t.door.disk, t.door.config)
  {
    s := Relock.Booted();
    Relock.BootedIsInitial();
    var first, armed := ArmTheReader();
    var second;
    second, t := ScanAtTheLastMoment(armed);
    actions := first + second;
    PunctualAppend(s, first, armed, second, t);
  }
}
