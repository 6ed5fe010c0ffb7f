/** The relock protocol over whole runs: no unlock is left without a relock on its way, and every
    relock is explained by the timer that asked for it. */
module Relock {
  import opened Basics
  import opened Events
  import opened LockController
  import opened Dispatcher
  import opened DoorSystem
  import opened ConfigFile
  import DoorSensor
  import Uid

  /** The expiry of timer `id` is counted down, about to be posted, queued, or lost. */
  predicate Queued(s: System, id: nat) {
    UnlockTimerExpired(id) in s.queue
  }

  predicate OnItsWay(s: System, id: nat) {
    id in s.firing || Queued(s, id)
  }

  /** Every timer was started by an unlock; only a due one is on its way. */
  ghost predicate Started(s: System) {
    var k := s.door.lock;
    && (forall id: nat :: id in s.h.started <==> id < k.nextTimer)
    && (forall id :: id in k.pending ==> id < k.nextTimer && k.pending[id] == s.h.started[id].due)
    && (forall id: nat :: OnItsWay(s, id) ==> id < k.nextTimer && s.h.started[id].due <= s.now)
    && (forall id :: id in s.h.dropped ==> id < k.nextTimer && s.h.dropped[id] == QUEUE_CAPACITY)
  }

  /** A timer is in one place at a time, and its expiry is queued once. */
  ghost predicate OnePlace(s: System) {
    var k := s.door.lock;
    && (forall id :: id in k.pending ==> !OnItsWay(s, id) && id !in s.h.dropped)
    && (forall id :: id in s.firing ==> !Queued(s, id) && id !in s.h.dropped)
    && (forall id: nat :: Queued(s, id) ==> id !in s.h.dropped)
    && (forall i, j :: 0 <= i < j < |s.queue| && s.queue[i].UnlockTimerExpired? ==> s.queue[i] != s.queue[j])
  }

  ghost predicate Current(s: System) {
    var k := s.door.lock;
    (s.phase.Stopped? <==> k.released) &&
    if s.phase.Stopped? then
      k.timer.None? && k.pending == map[] && k.relay == RelayLevel(k.activeLow, LOCKED) && k.led == LedLevel(LOCKED)
    else
      && Encoded(k)
      && (k.state == LOCKED ==> k.timer.None? && k.pending == map[])
      && (k.state == UNLOCKED ==>
            && k.timer.Some? && k.timer.value + 1 == k.nextTimer
            && k.pending.Keys <= {k.timer.value}
            && (k.timer.value in k.pending || OnItsWay(s, k.timer.value) || k.timer.value in s.h.dropped)
            && (k.timer.value in s.h.started)
            && forall id: nat :: OnItsWay(s, id) && id != k.timer.value ==> id in s.h.started[k.timer.value].stale)
  }

  ghost predicate Inv(s: System) {
    |s.queue| <= QUEUE_CAPACITY && Started(s) && OnePlace(s) && Current(s)
  }

  /** A step that touches neither the lock nor its timers, and queues at most one other event. */
  ghost predicate Unrelated(s: System, t: System) {
    && t.door.lock == s.door.lock && t.firing == s.firing && t.h.started == s.h.started && t.h.dropped == s.h.dropped
    && (t.phase.Stopped? <==> s.phase.Stopped?) && s.now <= t.now
    && (t.queue == s.queue || (exists e: Event :: !e.UnlockTimerExpired? && t.queue == Put(s.queue, e)))
  }

  lemma UnrelatedKeepsInv(s: System, t: System)
    requires Inv(s) && Unrelated(s, t)
    ensures Inv(t)
  {
    assert forall id: nat :: Queued(t, id) <==> Queued(s, id);
    assert forall id: nat :: OnItsWay(t, id) <==> OnItsWay(s, id);
  }

  lemma DueKeepsInv(s: System, id: nat)
    requires Inv(s) && Enabled(s, TimerDue(id))
    ensures Inv(Next(s, TimerDue(id)))
  {
    var t := Next(s, TimerDue(id));
    assert forall x: nat :: OnItsWay(t, x) <==> OnItsWay(s, x) || x == id;
  }

  lemma PostKeepsInv(s: System, id: nat)
    requires Inv(s) && Enabled(s, TimerPost(id))
    ensures Inv(Next(s, TimerPost(id)))
  {
    var t := Next(s, TimerPost(id));
    assert OnItsWay(s, id);
    if |s.queue| < QUEUE_CAPACITY {
      assert forall x: nat :: Queued(t, x) <==> Queued(s, x) || x == id;
      assert forall x: nat :: OnItsWay(t, x) <==> OnItsWay(s, x);
      assert !Queued(s, id);
    } else {
      assert forall x: nat :: Queued(t, x) <==> Queued(s, x);
      assert forall x: nat :: OnItsWay(t, x) <==> OnItsWay(s, x) && x != id;
    }
  }

  lemma ShutdownKeepsInv(s: System)
    requires Inv(s) && s.phase.AtHead?
    ensures Inv(Next(s, Shutdown))
  {
    var t := Next(s, Shutdown);
    assert forall id: nat :: OnItsWay(t, id) <==> OnItsWay(s, id);
  }

  /** The head of the queue is gone; timers fire and expiries drop elsewhere. */
  predicate Popped(s: System, t: System) {
    && s.phase.Waiting? && t.phase.AtHead? && s.queue != [] && t.queue == s.queue[1..]
    && t.now == s.now && t.firing == s.firing && t.h.dropped == s.h.dropped
  }

  lemma PoppedTimers(s: System, t: System)
    requires OnePlace(s) && Popped(s, t)
    ensures forall id: nat :: Queued(t, id) <==> Queued(s, id) && s.queue[0] != UnlockTimerExpired(id)
    ensures OnItsWayAfter(s, t)
    ensures forall i, j :: 0 <= i < j < |t.queue| && t.queue[i].UnlockTimerExpired? ==> t.queue[i] != t.queue[j]
  {
    assert s.queue == [s.queue[0]] + t.queue;
    assert forall i :: 0 <= i < |t.queue| ==> t.queue[i] == s.queue[i + 1];
    forall id: nat | Queued(t, id)
      ensures s.queue[0] != UnlockTimerExpired(id)
    {
      var j :| 0 <= j < |t.queue| && t.queue[j] == UnlockTimerExpired(id);
      assert s.queue[j + 1] == t.queue[j];
    }
  }

  ghost predicate OnItsWayAfter(s: System, t: System) {
    forall id: nat :: OnItsWay(t, id) ==> OnItsWay(s, id)
  }

  lemma RelockKeepsInv(s: System, t: System)
    requires Inv(s) && Popped(s, t) && t.door.lock == Locked(s.door.lock) && t.h.started == s.h.started
    ensures Inv(t)
  {
    PoppedTimers(s, t);
  }

  lemma LeaveKeepsInv(s: System, t: System)
    requires Inv(s) && Popped(s, t) && !s.queue[0].UnlockTimerExpired? && t.h.started == s.h.started
    requires SameTimers(t.door.lock, s.door.lock) && Encoded(t.door.lock)
    ensures Inv(t)
  {
    PoppedTimers(s, t);
    assert forall id: nat :: OnItsWay(t, id) <==> OnItsWay(s, id);
  }

  lemma UnlockKeepsInv(s: System, t: System)
    requires Inv(s) && Popped(s, t) && !s.queue[0].UnlockTimerExpired?
    requires t.door.lock == Unlocked(s.door.lock, None, s.now)
    requires var id := s.door.lock.nextTimer;
             t.h.started == s.h.started[id := DoorSystem.Started(s.now, t.door.lock.pending[id], s.firing + QueuedTimers(t.queue))]
    ensures Inv(t)
  {
    PoppedTimers(s, t);
    var id := s.door.lock.nextTimer;
    assert t.door.lock.pending.Keys == {id};
    assert !OnItsWay(s, id);
    forall x: nat | OnItsWay(t, x)
      ensures x in t.h.started[id].stale
    {
      assert Queued(t, x) ==> x in QueuedTimers(t.queue);
    }
  }

  lemma DispatchKeepsInv(s: System, fault: Option<Step>, logFails: bool)
    requires Inv(s) && s.phase.Waiting? && s.queue != []
    ensures Inv(DispatchHead(s, fault, logFails))
  {
    var e, env := s.queue[0], Env(s.now, fault, logFails);
    var t := DispatchHead(s, fault, logFails);
    DispatchLock(s.door, e, env);
    if Unlocks(s.door, e) {
      UnlockKeepsInv(s, t);
    } else if Locks(e) {
      RelockKeepsInv(s, t);
    } else {
      LeaveKeepsInv(s, t);
    }
  }

  lemma OtherStep(s: System, a: Action)
    requires Enabled(s, a) && !a.TimerDue? && !a.TimerPost? && !a.DispatchNext? && !a.Shutdown?
    ensures Unrelated(s, Next(s, a))
  {
    StepFrame(s, a);
  }

  lemma StepKeepsInv(s: System, a: Action)
    requires Inv(s) && Enabled(s, a)
    ensures Inv(Next(s, a))
  {
    if a.TimerDue? {
      DueKeepsInv(s, a.id);
    } else if a.TimerPost? {
      PostKeepsInv(s, a.id);
    } else if a.DispatchNext? {
      DispatchKeepsInv(s, a.fault, a.logFails);
    } else if a.Shutdown? {
      ShutdownKeepsInv(s);
    } else {
      OtherStep(s, a);
      UnrelatedKeepsInv(s, Next(s, a));
    }
  }

  lemma InitHasInv(s: System, setup: seq<real>)
    requires Init(s, setup)
    ensures Inv(s)
  {
    assert forall id: nat :: !OnItsWay(s, id);
  }

  lemma {:induction false} RunKeepsInv(s: System, actions: seq<Action>, t: System)
    requires Inv(s) && Run(s, actions, t)
    ensures Inv(t)
    decreases |actions|
  {
    if actions != [] {
      StepKeepsInv(s, actions[0]);
      RunKeepsInv(Next(s, actions[0]), actions[1..], t);
    }
  }

  // ----- Main results.

  /** Timer `id` is in exactly one place: counting, about to post, queued, or lost because the queue
      held as many events as it can. */
  predicate InOnePlace(s: System, id: nat) {
    var counting, firing, queued, lost := id in s.door.lock.pending, id in s.firing, Queued(s, id), id in s.h.dropped;
    || (counting && !firing && !queued && !lost)
    || (!counting && firing && !queued && !lost)
    || (!counting && !firing && queued && !lost)
    || (!counting && !firing && !queued && lost && s.h.dropped[id] == 100)
  }

  /** In every state that any interleaving reaches before shutdown: at most one timer is counting,
      none when the door is locked, the pins say what the state says, and an unlocked door's own timer
      is in exactly one of four places: counting, about to post, queued, or lost to a full queue. */
  lemma NoLostRelock(s: System, setup: seq<real>, actions: seq<Action>, t: System)
    requires Init(s, setup) && Run(s, actions, t) && !t.phase.Stopped?
    ensures Encoded(t.door.lock) && |t.door.lock.pending| <= 1
    ensures t.door.lock.state == LOCKED ==> t.door.lock.pending == map[] && t.door.lock.timer.None?
    ensures t.door.lock.state == UNLOCKED ==> t.door.lock.timer.Some? && InOnePlace(t, t.door.lock.timer.value)
  {
    InitHasInv(s, setup);
    RunKeepsInv(s, actions, t);
    var k := t.door.lock;
    if k.state == UNLOCKED {
      assert |k.pending.Keys| <= |{k.timer.value}| by { SubsetSize(k.pending.Keys, {k.timer.value}); }
      assert Queued(t, k.timer.value) ==> OnItsWay(t, k.timer.value);
    }
  }

  lemma {:induction false} SubsetSize(a: set<nat>, b: set<nat>)
    requires a <= b
    ensures |a| <= |b|
  {
    if a != {} {
      var x :| x in a;
      SubsetSize(a - {x}, b - {x});
    }
  }

  /** Once shutdown has begun, no timer counts, the locked level was the last one driven on the relay and
      the LED, and the pins are released; before that they are not. */
  lemma ShutdownLocks(s: System, setup: seq<real>, actions: seq<Action>, t: System)
    requires Init(s, setup) && Run(s, actions, t)
    ensures t.phase.Stopped? <==> t.door.lock.released
    ensures t.phase.Stopped? ==>
              && t.door.lock.pending == map[] && t.door.lock.timer.None?
              && t.door.lock.relay == RelayLevel(t.door.lock.activeLow, LOCKED) && t.door.lock.led == LedLevel(LOCKED)
  {
    InitHasInv(s, setup);
    RunKeepsInv(s, actions, t);
  }

  /** Why an expiry relocks an unlocked door: it is the expiry of the current unlock's own timer, which
      is due, or of an older timer whose expiry was already on its way when the current unlock ran. */
  lemma RelockIsExplained(s: System, setup: seq<real>, actions: seq<Action>, t: System)
    requires Init(s, setup) && Run(s, actions, t)
    requires t.phase.Waiting? && t.queue != [] && t.queue[0].UnlockTimerExpired? && t.door.lock.state == UNLOCKED
    ensures t.door.lock.timer.Some? && t.door.lock.timer.value in t.h.started
    ensures var id, current := t.queue[0].timer, t.door.lock.timer.value;
            || (id == current && t.h.started[current].due <= t.now)
            || (id < current && id in t.h.started[current].stale)
  {
    InitHasInv(s, setup);
    RunKeepsInv(s, actions, t);
    assert OnItsWay(t, t.queue[0].timer);
  }

  /** The action dispatches a lock command, shuts the service down, or dispatches the expiry of a
      timer numbered `first` or later at or after the time it is due. */
  ghost predicate EndsUnlock(s: System, a: Action, first: nat) {
    Enabled(s, a) &&
    match a
    case Shutdown => true
    case DispatchNext(_, _) =>
      (match s.queue[0]
       case UnlockTimerExpired(id) => first <= id && id in s.h.started && s.h.started[id].due <= s.now
       case _ => Locks(s.queue[0]))
    case _ => false
  }

  ghost predicate OpenSince(s: System, first: nat) {
    && Inv(s) && !s.phase.Stopped? && s.door.lock.state == UNLOCKED && first < s.door.lock.nextTimer
    && forall id: nat :: OnItsWay(s, id) ==> first <= id
  }

  lemma DispatchKeepsOpen(s: System, fault: Option<Step>, logFails: bool, first: nat)
    requires OpenSince(s, first) && s.phase.Waiting? && s.queue != []
    requires !EndsUnlock(s, DispatchNext(fault, logFails), first)
    ensures OpenSince(DispatchHead(s, fault, logFails), first)
  {
    DispatchKeepsInv(s, fault, logFails);
    if s.queue[0].UnlockTimerExpired? {
      assert OnItsWay(s, s.queue[0].timer);
    }
    DispatchLock(s.door, s.queue[0], Env(s.now, fault, logFails));
    PoppedTimers(s, DispatchHead(s, fault, logFails));
  }

  lemma StepAddsTimers(s: System, a: Action)
    requires Inv(s) && Enabled(s, a) && !a.DispatchNext? && !a.Shutdown?
    ensures forall id: nat :: OnItsWay(Next(s, a), id) ==> OnItsWay(s, id) || id in s.door.lock.pending
    ensures Next(s, a).door.lock.state == s.door.lock.state && Next(s, a).door.lock.nextTimer == s.door.lock.nextTimer
    ensures !Next(s, a).phase.Stopped? || s.phase.Stopped?
  {
  }

  lemma OtherKeepsOpen(s: System, a: Action, first: nat)
    requires OpenSince(s, first) && Enabled(s, a) && !a.DispatchNext? && !a.Shutdown?
    ensures OpenSince(Next(s, a), first)
  {
    StepKeepsInv(s, a);
    StepAddsTimers(s, a);
    assert forall id :: id in s.door.lock.pending ==> id == s.door.lock.timer.value;
  }

  lemma StepKeepsOpen(s: System, a: Action, first: nat)
    requires OpenSince(s, first) && Enabled(s, a) && !EndsUnlock(s, a, first)
    ensures OpenSince(Next(s, a), first)
  {
    if a.DispatchNext? {
      DispatchKeepsOpen(s, a.fault, a.logFails, first);
    } else {
      assert !a.Shutdown?;
      OtherKeepsOpen(s, a, first);
    }
  }

  /** Some action of the run ends the unlock. */
  ghost predicate Ended(s: System, actions: seq<Action>, first: nat) {
    exists k :: 0 <= k < |actions| && EndsUnlock(Reached(s, actions[..k]), actions[k], first)
  }

  lemma EndedLater(s: System, actions: seq<Action>, first: nat)
    requires actions != [] && Enabled(s, actions[0]) && Ended(Next(s, actions[0]), actions[1..], first)
    ensures Ended(s, actions, first)
  {
    var rest := actions[1..];
    var k :| 0 <= k < |rest| && EndsUnlock(Reached(Next(s, actions[0]), rest[..k]), rest[k], first);
    assert actions[..k + 1][1..] == rest[..k];
    assert EndsUnlock(Reached(s, actions[..k + 1]), actions[k + 1], first);
  }

  lemma {:induction false} RunKeepsOpen(s: System, actions: seq<Action>, t: System, first: nat)
    requires OpenSince(s, first) && Run(s, actions, t)
    ensures OpenSince(t, first) || Ended(s, actions, first)
    decreases |actions|
  {
    if actions != [] {
      if EndsUnlock(s, actions[0], first) {
        assert Reached(s, actions[..0]) == s;
      } else {
        StepKeepsOpen(s, actions[0], first);
        RunKeepsOpen(Next(s, actions[0]), actions[1..], t, first);
        if Ended(Next(s, actions[0]), actions[1..], first) {
          EndedLater(s, actions, first);
        }
      }
    }
  }

  /** When an unlock runs while no expiry is on its way, the door stays unlocked through any run until
      the timer of that or a later unlock is due and its expiry is dispatched, or a lock command or
      shutdown runs. */
  lemma StaysUnlocked(s: System, setup: seq<real>, before: seq<Action>, u: System, fault: Option<Step>,
                      logFails: bool, actions: seq<Action>, t: System)
    requires Init(s, setup) && Run(s, before, u) && (forall id: nat :: !OnItsWay(u, id))
    requires Enabled(u, DispatchNext(fault, logFails)) && Unlocks(u.door, u.queue[0])
    requires Run(DispatchHead(u, fault, logFails), actions, t)
    ensures (t.door.lock.state == UNLOCKED && !t.phase.Stopped?)
         || Ended(DispatchHead(u, fault, logFails), actions, u.door.lock.nextTimer)
  {
    InitHasInv(s, setup);
    RunKeepsInv(s, before, u);
    var unlocked := DispatchHead(u, fault, logFails);
    DispatchKeepsInv(u, fault, logFails);
    DispatchLock(u.door, u.queue[0], Env(u.now, fault, logFails));
    PoppedTimers(u, unlocked);
    RunKeepsOpen(unlocked, actions, t, u.door.lock.nextTimer);
  }

  /** The expiry at position `k` moves one place forward with a dispatch and stays put otherwise. */
  lemma ExpiryMovesUp(s: System, a: Action, k: nat)
    requires Inv(s) && Enabled(s, a) && k < |s.queue| && s.queue[k].UnlockTimerExpired? && (a.DispatchNext? ==> k > 0)
    ensures Inv(Next(s, a))
    ensures var place := if a.DispatchNext? then k - 1 else k;
            place < |Next(s, a).queue| && Next(s, a).queue[place] == s.queue[k]
  {
    StepKeepsInv(s, a);
  }

  lemma ExpiryRelocks(s: System, fault: Option<Step>, logFails: bool)
    requires Inv(s) && s.phase.Waiting? && s.queue != [] && s.queue[0].UnlockTimerExpired?
    ensures var lock := DispatchHead(s, fault, logFails).door.lock;
            lock.state == LOCKED && lock.timer.None? && lock.pending == map[]
  {
    DispatchLock(s.door, s.queue[0], Env(s.now, fault, logFails));
    DispatchKeepsInv(s, fault, logFails);
  }

  lemma {:induction false} ExpiryReachesHead(s: System, actions: seq<Action>, t: System, k: nat)
    requires Inv(s) && Run(s, actions, t)
    requires k < |s.queue| && s.queue[k].UnlockTimerExpired? && Dispatches(actions) == k
    ensures Inv(t) && t.queue != [] && t.queue[0] == s.queue[k]
    decreases |actions|
  {
    if actions != [] {
      ExpiryMovesUp(s, actions[0], k);
      ExpiryReachesHead(Next(s, actions[0]), actions[1..], t, if actions[0].DispatchNext? then k - 1 else k);
    }
  }

  /** An expiry at position `k` of the queue relocks the door with exactly the dispatch that follows the
      next `k`, whatever the other threads queue meanwhile and whatever those dispatches do. */
  lemma RelockIsBounded(s: System, setup: seq<real>, before: seq<Action>, u: System, k: nat,
                        actions: seq<Action>, t: System, fault: Option<Step>, logFails: bool)
    requires Init(s, setup) && Run(s, before, u)
    requires k < |u.queue| && u.queue[k].UnlockTimerExpired?
    requires Run(u, actions, t) && Dispatches(actions) == k && Enabled(t, DispatchNext(fault, logFails))
    ensures var lock := Next(t, DispatchNext(fault, logFails)).door.lock;
            lock.state == LOCKED && lock.timer.None? && lock.pending == map[]
  {
    InitHasInv(s, setup);
    RunKeepsInv(s, before, u);
    ExpiryReachesHead(u, actions, t, k);
    ExpiryRelocks(t, fault, logFails);
  }

  // ----- An early relock does happen.

  function Plain(): Config {
    Config(map[], 5.0, true, [], None)
  }

  function Booted(): System {
    var c := Plain();
    var sensor := DoorSensor.Installed("door", 30.0, true, HIGH, 0.0);
    var lock := LockData(true, 5.0, LOCKED, None, HIGH, LOW, map[], 0, false);
    var door := Door(lock, [sensor], c, Disk(File(Whole(c), true), None),
                     Enroll(false, 0.0, "", "", None), true, [], []);
    System(0.0, [DoorState("door", CLOSED)], door, {}, map[], AtHead, Idle, 0, map[],
           History(map[], map[], [], map[], [], [], 0))
  }

  lemma Turn(s: System) returns (t: System)
    requires s.phase.AtHead? && s.queue != [] && !s.queue[0].WebCommand? && !s.queue[0].NfcUid?
    ensures Run(s, [LoopHead, DispatchNext(None, false)], t) && t.phase.AtHead?
    ensures t.queue == s.queue[1..] && t.now == s.now && t.firing == s.firing
    ensures s.queue[0].ButtonPress? ==> t.door.lock == Unlocked(s.door.lock, None, s.now)
    ensures s.queue[0].DoorState? ==> t.door.lock == s.door.lock
    ensures s.queue[0].UnlockTimerExpired? ==> t.door.lock == Locked(s.door.lock)
  {
    var u := Next(s, LoopHead);
    t := Next(u, DispatchNext(None, false));
    assert Run(u, [DispatchNext(None, false)], t);
  }

  function OpenLock(pending: map<nat, real>, id: nat): Lock {
    LockData(true, 5.0, UNLOCKED, Some(id), LOW, HIGH, pending, id + 1, false)
  }

  lemma FirstUnlock() returns (actions: seq<Action>, t: System)
    ensures Run(Booted(), actions, t)
    ensures t.phase.AtHead? && t.queue == [] && t.firing == {} && t.now == 0.0
    ensures t.door.lock == OpenLock(map[0 := 5.0], 0)
  {
    var turn := [LoopHead, DispatchNext(None, false)];
    var s1 := Turn(Booted());
    var s2 := One(s1, PressButton);
    t := Turn(s2);
    RunAppend(s1, [PressButton], s2, turn, t);
    actions := turn + ([PressButton] + turn);
    RunAppend(Booted(), turn, s1, [PressButton] + turn, t);
  }

  lemma ExpiryBehindButton(s: System) returns (actions: seq<Action>, t: System)
    requires s.phase.AtHead? && s.queue == [] && s.firing == {} && s.now == 0.0
    requires s.door.lock == OpenLock(map[0 := 5.0], 0)
    ensures Run(s, actions, t)
    ensures t.phase.AtHead? && t.queue == [ButtonPress, UnlockTimerExpired(0)] && t.now == 5.0
    ensures t.door.lock == OpenLock(map[], 0)
  {
    var s1 := One(s, Tick(5.0));
    var s2 := One(s1, TimerDue(0));
    RunAppend(s, [Tick(5.0)], s1, [TimerDue(0)], s2);
    var s3 := One(s2, PressButton);
    t := One(s3, TimerPost(0));
    RunAppend(s2, [PressButton], s3, [TimerPost(0)], t);
    actions := [Tick(5.0)] + [TimerDue(0)] + ([PressButton] + [TimerPost(0)]);
    RunAppend(s, [Tick(5.0)] + [TimerDue(0)], s2, [PressButton] + [TimerPost(0)], t);
  }

  lemma BootedIsInitial()
    ensures Init(Booted(), [0.0])
  {
  }

  /** The button is pressed again just before the first unlock's timer posts its expiry: the second
      unlock is cut short at the moment it begins, five seconds before its own timer is due. */
  lemma EarlyRelockHappens() returns (s: System, actions: seq<Action>, unlocked: System, t: System)
    ensures Init(s, [0.0]) && Run(s, actions, unlocked)
    ensures unlocked.door.lock.state == UNLOCKED && unlocked.door.lock.pending == map[1 := 10.0]
    ensures Run(unlocked, [LoopHead, DispatchNext(None, false)], t)
    ensures t.now == 5.0 && t.door.lock.state == LOCKED
  {
    s := Booted();
    BootedIsInitial();
    var first, once := FirstUnlock();
    var second, full := ExpiryBehindButton(once);
    RunAppend(s, first, once, second, full);
    unlocked := Turn(full);
    RunAppend(s, first + second, full, [LoopHead, DispatchNext(None, false)], unlocked);
    actions := first + second + [LoopHead, DispatchNext(None, false)];
    assert full.door.lock.pending - {0} == map[];
    t := Turn(unlocked);
  }
}
