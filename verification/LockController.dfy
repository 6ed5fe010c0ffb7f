/** The electromagnetic lock: its logical state, the relay and LED levels that encode it, and the
    timer that will ask for a relock. */
module LockController {
  import opened Basics
  import opened Events

  /** `timer` is the controller's reference to the timer it started last, which stays behind when
      that timer fires; `pending` holds the timers still counting, with the time each is due. `relay`
      and `led` are the levels driven last; a `released` pin is an input again and drives none. */
  datatype Lock = LockData(activeLow: bool, defaultDuration: real, state: LockState, timer: Option<nat>,
                           relay: Level, led: Level, pending: map<nat, real>, nextTimer: nat, released: bool)

  function RelayLevel(activeLow: bool, state: LockState): Level {
    if activeLow then (if state == UNLOCKED then LOW else HIGH)
    else (if state == UNLOCKED then HIGH else LOW)
  }

  function LedLevel(state: LockState): Level {
    if state == UNLOCKED then HIGH else LOW
  }

  function Applied(k: Lock, state: LockState): Lock {
    k.(relay := RelayLevel(k.activeLow, state), led := LedLevel(state))
  }

  function Cancelled(k: Lock): Lock {
    if k.timer.None? then k else k.(timer := None, pending := k.pending - {k.timer.value})
  }

  function Locked(k: Lock): Lock {
    Applied(Cancelled(k).(state := LOCKED), LOCKED)
  }

  /** Starts the timer `k.nextTimer`, due `duration` after `now`; the default duration when none is given. */
  function Unlocked(k: Lock, duration: Option<real>, now: real): Lock {
    var length := if duration.Some? then duration.value else k.defaultDuration;
    var open := Applied(Cancelled(k).(state := UNLOCKED), UNLOCKED);
    open.(timer := Some(k.nextTimer), pending := open.pending[k.nextTimer := now + length],
          nextTimer := k.nextTimer + 1)
  }

  function WithRelayPolarity(k: Lock, activeLow: bool): Lock {
    Applied(k.(activeLow := activeLow), k.state)
  }

  /** Drives the locked level without recording the state, and then releases the pins. */
  function CleanedUp(k: Lock): Lock {
    Applied(Cancelled(k), LOCKED).(released := true)
  }

  /** The pins say what the state says. */
  predicate Encoded(k: Lock) {
    k.relay == RelayLevel(k.activeLow, k.state) && k.led == LedLevel(k.state)
  }

  class LockController {
    const queue: EventQueue
    var activeLow: bool
    var defaultDuration: real
    var state: LockState
    var timer: Option<nat>
    var relay: Level
    var led: Level
    var pending: map<nat, real>
    var nextTimer: nat
    var released: bool

    function State(): Lock
      reads this
    {
      LockData(activeLow, defaultDuration, state, timer, relay, led, pending, nextTimer, released)
    }

    /** Construction and `setup`: the relay comes up at the locked level. */
    constructor (queue: EventQueue, activeLow: bool, defaultDuration: real)
      ensures this.queue == queue
      ensures State() == LockData(activeLow, defaultDuration, LOCKED, None, RelayLevel(activeLow, LOCKED), LOW, map[], 0, false)
    {
      this.queue, this.activeLow, this.defaultDuration := queue, activeLow, defaultDuration;
      state, timer, pending, nextTimer := LOCKED, None, map[], 0;
      relay, led, released := if activeLow then HIGH else LOW, LOW, false;
    }

    method ApplyState(st: LockState)
      modifies this`relay, this`led
      ensures State() == Applied(old(State()), st)
    {
      if activeLow {
        relay := if st == UNLOCKED then LOW else HIGH;
      } else {
        relay := if st == UNLOCKED then HIGH else LOW;
      }
      led := if st == UNLOCKED then HIGH else LOW;
    }

    method Lock()
      modifies this
      ensures State() == Locked(old(State()))
    {
      if timer.Some? {
        pending := pending - {timer.value};
        timer := None;
      }
      state := LOCKED;
      ApplyState(LOCKED);
    }

    method Unlock(duration: Option<real>, now: real)
      modifies this
      ensures State() == Unlocked(old(State()), duration, now)
      ensures state == UNLOCKED && timer == Some(old(nextTimer)) && old(nextTimer) in pending
      ensures pending[old(nextTimer)] == now + (if duration.Some? then duration.value else old(defaultDuration))
    {
      var length := if duration.Some? then duration.value else defaultDuration;
      if timer.Some? {
        pending := pending - {timer.value};
        timer := None;
      }
      state := UNLOCKED;
      ApplyState(UNLOCKED);
      timer := Some(nextTimer);
      pending := pending[nextTimer := now + length];
      nextTimer := nextTimer + 1;
    }

    method SetActiveLow(low: bool)
      modifies this
      ensures State() == WithRelayPolarity(old(State()), low)
    {
      activeLow := low;
      ApplyState(state);
    }

    method SetDefaultDuration(seconds: real)
      modifies this`defaultDuration
      ensures State() == old(State()).(defaultDuration := seconds)
    {
      defaultDuration := seconds;
    }

    method Cleanup()
      modifies this
      ensures State() == CleanedUp(old(State()))
    {
      if timer.Some? {
        pending := pending - {timer.value};
        timer := None;
      }
      ApplyState(LOCKED);
      released := true;
    }

    /** Runs on the timer's own thread: it only posts, and never touches the lock. */
    method TimerCallback(id: nat)
      modifies queue
      ensures queue.items == Put(old(queue.items), UnlockTimerExpired(id))
    {
      var ok := queue.PutNowait(UnlockTimerExpired(id));
    }

    method ButtonCallback()
      modifies queue
      ensures queue.items == Put(old(queue.items), ButtonPress)
    {
      var ok := queue.PutNowait(ButtonPress);
    }
  }

  /** What each operation leaves on the pins and in the state, from any state whatever. */
  lemma PinsFollowState(k: Lock, duration: Option<real>, now: real, activeLow: bool)
    ensures Encoded(Locked(k)) && Locked(k).state == LOCKED && Locked(k).timer.None?
    ensures Encoded(Unlocked(k, duration, now)) && Unlocked(k, duration, now).state == UNLOCKED
    ensures Encoded(WithRelayPolarity(k, activeLow)) && WithRelayPolarity(k, activeLow).state == k.state
    ensures CleanedUp(k).relay == RelayLevel(k.activeLow, LOCKED) && CleanedUp(k).led == LedLevel(LOCKED)
    ensures CleanedUp(k).timer.None? && CleanedUp(k).released
    ensures Encoded(CleanedUp(k)) <==> k.state == LOCKED
  {
  }

  /** An active-low relay is energized by the low level and an active-high one by the high level; it is
      energized, and the LED lit, exactly while the door is unlocked. */
  lemma LevelsMeanState(activeLow: bool, state: LockState)
    ensures (RelayLevel(activeLow, state) == (if activeLow then LOW else HIGH)) <==> state == UNLOCKED
    ensures RelayLevel(!activeLow, state) != RelayLevel(activeLow, state)
    ensures LedLevel(state) == HIGH <==> state == UNLOCKED
  {
  }

  /** The timers that count are those of `k` except the one `k` refers to. */
  ghost predicate TimerDropped(k: Lock, after: Lock) {
    && (forall id :: id in after.pending ==> id in k.pending && after.pending[id] == k.pending[id])
    && (forall id :: id in k.pending && k.timer != Some(id) ==> id in after.pending)
    && (forall id :: k.timer == Some(id) ==> id !in after.pending)
  }

  /** An unlock starts one new timer, due after the given duration, or after the default one when none is
      given, and cancels the last; locking and cleaning up only cancel it. Settings change only by the
      operations that set them. */
  lemma TimersFollow(k: Lock, duration: Option<real>, now: real, low: bool)
    requires k.nextTimer !in k.pending && (k.timer.Some? ==> k.timer.value < k.nextTimer)
    ensures var open := Unlocked(k, duration, now);
            && open.timer == Some(k.nextTimer) && open.nextTimer == k.nextTimer + 1 && k.nextTimer in open.pending
            && open.pending[k.nextTimer] == now + (if duration.Some? then duration.value else k.defaultDuration)
            && TimerDropped(k, open.(pending := open.pending - {k.nextTimer}))
            && open.activeLow == k.activeLow && open.defaultDuration == k.defaultDuration && open.released == k.released
    ensures forall closed :: closed == Locked(k) || closed == CleanedUp(k) ==>
              && closed.timer.None? && closed.nextTimer == k.nextTimer && TimerDropped(k, closed)
              && closed.activeLow == k.activeLow && closed.defaultDuration == k.defaultDuration
    ensures Locked(k).released == k.released && CleanedUp(k).state == k.state
    ensures var turned := WithRelayPolarity(k, low);
            turned == k.(activeLow := low, relay := turned.relay, led := turned.led)
  {
    var open := Unlocked(k, duration, now);
    assert (open.pending - {k.nextTimer}).Keys == k.pending.Keys - (if k.timer.Some? then {k.timer.value} else {});
  }
}
