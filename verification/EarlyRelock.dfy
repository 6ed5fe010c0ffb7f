/** When an unlock can be cut short: exactly when an expiry of an older timer is on its way with no
    lock command ahead of it. */
module EarlyRelock {
  import opened Basics
  import opened Events
  import opened ConfigFile
  import opened LockController
  import opened Dispatcher
  import opened DoorSystem
  import opened Relock
  import Settings

  predicate IsLockCommand(e: Event) {
    e.WebCommand? && e.request.Object? && e.request.command.LockDoor?
  }

  predicate NoLockCommand(queue: seq<Event>) {
    forall i :: 0 <= i < |queue| ==> !IsLockCommand(queue[i])
  }

  predicate ExposedAt(s: System, id: nat, k: nat) {
    k < |s.queue| && s.queue[k] == UnlockTimerExpired(id) && NoLockCommand(s.queue[..k])
  }

  /** The expiry of timer `id` is about to be posted or queued, with no lock command ahead of it. */
  ghost predicate Exposed(s: System, id: nat) {
    (id in s.firing && NoLockCommand(s.queue)) || exists k: nat :: ExposedAt(s, id, k)
  }

  /** The action neither dispatches a lock command nor shuts the service down. */
  predicate Unprompted(s: System, a: Action) {
    !a.Shutdown? && !(a.DispatchNext? && s.queue != [] && IsLockCommand(s.queue[0]))
  }

  /** None of the timers started from `first` on is due yet. */
  ghost predicate BeforeDue(t: System, first: nat) {
    forall id: nat :: id in t.h.started && first <= id ==> t.now < t.h.started[id].due
  }

  /** Some run locks the door again without a lock command or shutdown, and before the timer of this
      unlock or of any later one is due. */
  ghost predicate CutShort(s: System, first: nat) {
    exists actions, t :: Run(s, actions, t) && Throughout(s, actions, Unprompted) && t.door.lock.state == LOCKED && BeforeDue(t, first)
  }

  // ----- An exposed expiry cuts the unlock short.

  /** Every timer from `first` on was started just now. */
  ghost predicate JustStarted(s: System, first: nat) {
    forall id: nat :: id in s.h.started && first <= id ==> s.h.started[id].at == s.now
  }

  ghost predicate AtUnlock(s: System, first: nat) {
    s.phase.AtHead? && Inv(s) && Settings.TimersInRange(s) && JustStarted(s, first)
  }

  lemma TurnOnce(s: System, first: nat) returns (t: System)
    requires AtUnlock(s, first) && s.queue != [] && !IsLockCommand(s.queue[0])
    ensures Run(s, [LoopHead, DispatchNext(None, false)], t) && Throughout(s, [LoopHead, DispatchNext(None, false)], Unprompted)
    ensures AtUnlock(t, first) && t.queue == s.queue[1..]
    ensures s.queue[0].UnlockTimerExpired? ==> t.door.lock.state == LOCKED
  {
    var awake := One(s, LoopHead);
    HeadKeeps(s, awake, first);
    t := One(awake, DispatchNext(None, false));
    RunAppend(s, [LoopHead], awake, [DispatchNext(None, false)], t);
    assert [LoopHead] + [DispatchNext(None, false)] == [LoopHead, DispatchNext(None, false)];
    UnpromptedTurn(s, awake);
    DispatchAtUnlock(awake, first);
  }

  lemma HeadKeeps(s: System, awake: System, first: nat)
    requires AtUnlock(s, first) && awake == Next(s, LoopHead)
    ensures Inv(awake) && Settings.TimersInRange(awake) && JustStarted(awake, first) && awake.queue == s.queue
  {
    StepKeepsInv(s, LoopHead);
  }

  lemma DispatchAtUnlock(s: System, first: nat)
    requires s.phase.Waiting? && s.queue != [] && Inv(s) && Settings.TimersInRange(s) && JustStarted(s, first)
    ensures AtUnlock(DispatchHead(s, None, false), first)
    ensures s.queue[0].UnlockTimerExpired? ==> DispatchHead(s, None, false).door.lock.state == LOCKED
  {
    DispatchKeepsInv(s, None, false);
    Settings.DispatchKeepsRange(s, None, false);
    if s.queue[0].UnlockTimerExpired? {
      ExpiryRelocks(s, None, false);
    }
  }

  lemma UnpromptedTurn(s: System, awake: System)
    requires Enabled(s, LoopHead) && awake == Next(s, LoopHead) && s.queue != [] && !IsLockCommand(s.queue[0])
    ensures Throughout(s, [LoopHead, DispatchNext(None, false)], Unprompted)
  {
    var actions := [LoopHead, DispatchNext(None, false)];
    assert actions[1..] == [DispatchNext(None, false)];
    assert Throughout(awake, actions[1..], Unprompted);
  }

  lemma RangeMeansBeforeDue(s: System, first: nat)
    requires Settings.TimersInRange(s) && JustStarted(s, first)
    ensures BeforeDue(s, first)
  {
  }

  /** Dispatching the queue down to the expiry locks the door while the clock stands still. */
  lemma {:induction false} DispatchDown(s: System, k: nat, first: nat) returns (actions: seq<Action>, t: System)
    requires AtUnlock(s, first) && k < |s.queue| && s.queue[k].UnlockTimerExpired? && NoLockCommand(s.queue[..k])
    ensures Run(s, actions, t) && Throughout(s, actions, Unprompted) && t.door.lock.state == LOCKED && BeforeDue(t, first)
    decreases k
  {
    assert k > 0 ==> s.queue[..k][0] == s.queue[0];
    var u := TurnOnce(s, first);
    var turn := [LoopHead, DispatchNext(None, false)];
    if k == 0 {
      actions, t := turn, u;
      RangeMeansBeforeDue(t, first);
    } else {
      assert u.queue[..k - 1] == s.queue[..k][1..];
      var rest;
      rest, t := DispatchDown(u, k - 1, first);
      actions := turn + rest;
      RunAppend(s, turn, u, rest, t);
      ThroughoutAppend(s, turn, u, rest, Unprompted);
    }
  }

  /** An expiry about to be posted finds room, because the unlock has just left the queue. */
  lemma PostThenDispatch(s: System, id: nat, first: nat) returns (actions: seq<Action>, t: System)
    requires AtUnlock(s, first) && id in s.firing && NoLockCommand(s.queue) && |s.queue| < QUEUE_CAPACITY
    ensures Run(s, actions, t) && Throughout(s, actions, Unprompted) && t.door.lock.state == LOCKED && BeforeDue(t, first)
  {
    var u := One(s, TimerPost(id));
    PostKeepsInv(s, id);
    assert u.queue[..|s.queue|] == s.queue;
    assert Throughout(u, [], Unprompted);
    var rest;
    rest, t := DispatchDown(u, |s.queue|, first);
    actions := [TimerPost(id)] + rest;
    RunAppend(s, [TimerPost(id)], u, rest, t);
    ThroughoutAppend(s, [TimerPost(id)], u, rest, Unprompted);
  }

  lemma AfterUnlock(s: System, u: System)
    requires Inv(s) && s.queue != [] && u.queue == s.queue[1..] && u.firing == s.firing && !s.queue[0].UnlockTimerExpired?
    ensures |u.queue| < QUEUE_CAPACITY
    ensures forall id: nat, k: nat :: ExposedAt(s, id, k) ==> k > 0 && ExposedAt(u, id, k - 1)
    ensures NoLockCommand(s.queue) ==> NoLockCommand(u.queue)
  {
    forall id: nat, k: nat | ExposedAt(s, id, k)
      ensures k > 0 && ExposedAt(u, id, k - 1)
    {
      assert u.queue[..k - 1] == s.queue[..k][1..];
    }
  }

  lemma ExposedCutsShort(s: System, id: nat, fault: Option<Step>, logFails: bool)
    requires Inv(s) && Settings.TimersInRange(s) && Exposed(s, id)
    requires s.phase.Waiting? && s.queue != [] && Unlocks(s.door, s.queue[0])
    ensures CutShort(DispatchHead(s, fault, logFails), s.door.lock.nextTimer)
  {
    var u, first := DispatchHead(s, fault, logFails), s.door.lock.nextTimer;
    DispatchKeepsInv(s, fault, logFails);
    Settings.DispatchKeepsRange(s, fault, logFails);
    AfterUnlock(s, u);
    var actions, t;
    if id in s.firing && NoLockCommand(s.queue) {
      actions, t := PostThenDispatch(u, id, first);
    } else {
      var k: nat :| ExposedAt(s, id, k);
      actions, t := DispatchDown(u, k - 1, first);
    }
  }

  // ----- Without one it stays open.

  /** Unlocked, and every expiry of a timer before `first` has a lock command ahead of it. */
  ghost predicate Shielded(s: System, first: nat) {
    && Inv(s) && !s.phase.Stopped? && s.door.lock.state == UNLOCKED && first < s.door.lock.nextTimer
    && forall id: nat :: id < first ==> !Exposed(s, id)
  }

  lemma PutExposes(s: System, t: System, id: nat, e: Event)
    requires Exposed(t, id) && (t.queue == s.queue || t.queue == s.queue + [e])
    requires id in t.firing ==> id in s.firing
    requires t.queue != s.queue && e == UnlockTimerExpired(id) ==> id in s.firing
    ensures Exposed(s, id)
  {
    assert t.queue[..|s.queue|] == s.queue;
    if id in t.firing && NoLockCommand(t.queue) {
      assert forall i :: 0 <= i < |s.queue| ==> t.queue[i] == s.queue[i];
    } else {
      var k: nat :| ExposedAt(t, id, k);
      if k < |s.queue| {
        assert t.queue[..k] == s.queue[..k];
        assert ExposedAt(s, id, k);
      }
    }
  }

  lemma OtherKeepsShield(s: System, a: Action, first: nat)
    requires Shielded(s, first) && Enabled(s, a) && !a.DispatchNext? && !a.Shutdown?
    ensures Shielded(Next(s, a), first)
  {
    var t := Next(s, a);
    StepKeepsInv(s, a);
    StepAddsTimers(s, a);
    StepFrame(s, a);
    assert forall id :: id in s.door.lock.pending ==> id == s.door.lock.timer.value;
    forall id: nat | id < first && Exposed(t, id)
      ensures Exposed(s, id)
    {
      assert id in t.firing ==> OnItsWay(t, id);
      assert id in t.firing ==> id in s.firing by { FiringGrows(s, a); }
      PutExposes(s, t, id, if Puts(s, a).Some? then Puts(s, a).value else ButtonPress);
    }
  }

  lemma FiringGrows(s: System, a: Action)
    requires Enabled(s, a) && !a.DispatchNext?
    ensures forall id :: id in Next(s, a).firing ==> id in s.firing || id in s.door.lock.pending
    ensures a.TimerPost? ==> a.id in s.firing
    ensures Puts(s, a).Some? && Puts(s, a).value.UnlockTimerExpired? ==> Puts(s, a).value.timer in s.firing
  {
  }

  lemma PopExposes(s: System, t: System, id: nat)
    requires s.queue != [] && t.queue == s.queue[1..] && t.firing == s.firing && !IsLockCommand(s.queue[0]) && Exposed(t, id)
    ensures Exposed(s, id)
  {
    assert s.queue == [s.queue[0]] + t.queue;
    if !(id in t.firing && NoLockCommand(t.queue)) {
      var k: nat :| ExposedAt(t, id, k);
      assert s.queue[..k + 1] == [s.queue[0]] + t.queue[..k];
      assert ExposedAt(s, id, k + 1);
    }
  }

  lemma HeadIsExposed(s: System)
    requires s.queue != [] && s.queue[0].UnlockTimerExpired?
    ensures Exposed(s, s.queue[0].timer)
  {
    assert ExposedAt(s, s.queue[0].timer, 0);
  }

  lemma DispatchKeepsShield(s: System, fault: Option<Step>, logFails: bool, first: nat)
    requires Shielded(s, first) && s.phase.Waiting? && s.queue != [] && !IsLockCommand(s.queue[0])
    requires s.queue[0].UnlockTimerExpired? ==> s.queue[0].timer < first
    ensures Shielded(DispatchHead(s, fault, logFails), first)
  {
    var e, t := s.queue[0], DispatchHead(s, fault, logFails);
    if e.UnlockTimerExpired? {
      HeadIsExposed(s);
      assert false;
    } else {
      DispatchKeepsInv(s, fault, logFails);
      DispatchLock(s.door, e, Env(s.now, fault, logFails));
      forall id: nat | id < first && Exposed(t, id)
        ensures Exposed(s, id)
      {
        PopExposes(s, t, id);
      }
    }
  }

  lemma {:induction false} StartedStays(s: System, actions: seq<Action>, t: System, id: nat)
    requires Inv(s) && Run(s, actions, t) && id in s.h.started
    ensures id in t.h.started && t.h.started[id] == s.h.started[id] && s.now <= t.now
    decreases |actions|
  {
    if actions != [] {
      StepKeepsInv(s, actions[0]);
      StartedStep(s, actions[0], id);
      StartedStays(Next(s, actions[0]), actions[1..], t, id);
    }
  }

  lemma StartedStep(s: System, a: Action, id: nat)
    requires Inv(s) && Enabled(s, a) && id in s.h.started
    ensures id in Next(s, a).h.started && Next(s, a).h.started[id] == s.h.started[id] && s.now <= Next(s, a).now
  {
    if !a.DispatchNext? {
      StepFrame(s, a);
    }
  }

  lemma {:induction false} ShieldedStaysOpen(s: System, actions: seq<Action>, t: System, first: nat)
    requires Shielded(s, first) && Run(s, actions, t) && Throughout(s, actions, Unprompted) && BeforeDue(t, first)
    ensures t.door.lock.state == UNLOCKED
    decreases |actions|
  {
    if actions != [] {
      var a := actions[0];
      if a.DispatchNext? {
        if s.queue[0].UnlockTimerExpired? && first <= s.queue[0].timer {
          assert OnItsWay(s, s.queue[0].timer);
          StartedStays(s, actions, t, s.queue[0].timer);
          assert false;
        } else {
          DispatchKeepsShield(s, a.fault, a.logFails, first);
        }
      } else {
        OtherKeepsShield(s, a, first);
      }
      ShieldedStaysOpen(Next(s, a), actions[1..], t, first);
    }
  }

  lemma UnlockIsShielded(s: System, fault: Option<Step>, logFails: bool)
    requires Inv(s) && s.phase.Waiting? && s.queue != [] && Unlocks(s.door, s.queue[0])
    requires forall id: nat :: !Exposed(s, id)
    ensures Shielded(DispatchHead(s, fault, logFails), s.door.lock.nextTimer)
  {
    var t := DispatchHead(s, fault, logFails);
    DispatchKeepsInv(s, fault, logFails);
    DispatchLock(s.door, s.queue[0], Env(s.now, fault, logFails));
    forall id: nat | Exposed(t, id)
      ensures Exposed(s, id)
    {
      PopExposes(s, t, id);
    }
  }

  // ----- Main result.

  /** An unlock can be cut short, by the expiry of an older timer and before any timer of its own or of
      a later unlock is due, if and only if such an expiry is on its way when the unlock runs and no
      lock command is queued ahead of it. */
  lemma CutShortIff(s: System, setup: seq<real>, before: seq<Action>, u: System, fault: Option<Step>, logFails: bool)
    requires Init(s, setup) && Settings.InRange(s.door.config.unlockDuration) && Run(s, before, u)
    requires Enabled(u, DispatchNext(fault, logFails)) && Unlocks(u.door, u.queue[0])
    ensures CutShort(DispatchHead(u, fault, logFails), u.door.lock.nextTimer) <==> exists id: nat :: Exposed(u, id)
    ensures NoLockCommand(u.queue) ==> forall id: nat :: Exposed(u, id) <==> OnItsWay(u, id)
  {
    var v, first := DispatchHead(u, fault, logFails), u.door.lock.nextTimer;
    InitHasInv(s, setup);
    RunKeepsInv(s, before, u);
    Settings.RunKeepsRange(s, before, u);
    if id: nat :| Exposed(u, id) {
      ExposedCutsShort(u, id, fault, logFails);
    } else {
      UnlockIsShielded(u, fault, logFails);
      if CutShort(v, first) {
        var actions, t :| Run(v, actions, t) && Throughout(v, actions, Unprompted) && t.door.lock.state == LOCKED && BeforeDue(t, first);
        ShieldedStaysOpen(v, actions, t, first);
        assert false;
      }
    }
    if NoLockCommand(u.queue) {
      forall id: nat
        ensures Exposed(u, id) <==> OnItsWay(u, id)
      {
        ExposedIsOnItsWay(u, id);
      }
    }
  }

  lemma ExposedIsOnItsWay(s: System, id: nat)
    requires NoLockCommand(s.queue)
    ensures Exposed(s, id) <==> OnItsWay(s, id)
  {
    if Queued(s, id) {
      var k :| 0 <= k < |s.queue| && s.queue[k] == UnlockTimerExpired(id);
      assert ExposedAt(s, id, k);
    }
  }
}
