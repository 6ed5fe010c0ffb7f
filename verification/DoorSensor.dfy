/** A door's reed switch: its derived state, the open-too-long alert, and the three code paths that
    share them. */
module DoorSensor {
  import opened Basics
  import opened Events

  /** `pin` is the level on the wire now; everything else is the sensor's own. */
  datatype Sensor = Sensor(name: string, threshold: real, activeLow: bool, pin: Level, state: Reading,
                           openSince: Option<real>, alertSent: bool)

  function Read(s: Sensor): Reading {
    if s.activeLow then (if s.pin == LOW then OPEN else CLOSED)
    else (if s.pin == HIGH then OPEN else CLOSED)
  }

  /** A new state opens or closes an episode; the same state changes nothing. */
  function Observed(s: Sensor, seen: Reading, now: real): Sensor {
    if seen == s.state then s
    else s.(state := seen, openSince := if seen == OPEN then Some(now) else None, alertSent := false)
  }

  function WithPolarity(s: Sensor, activeLow: bool, now: real): Sensor {
    var flipped := s.(activeLow := activeLow);
    Observed(flipped, Read(flipped), now)
  }

  predicate AlertDue(s: Sensor, now: real) {
    s.state == OPEN && s.openSince.Some? && !s.alertSent && now - s.openSince.value >= s.threshold
  }

  function Polled(s: Sensor, now: real): Sensor {
    if AlertDue(s, now) then s.(alertSent := true) else s
  }

  /** The sensor after `setup`. */
  function Installed(name: string, threshold: real, activeLow: bool, pin: Level, now: real): Sensor {
    Observed(Sensor(name, threshold, activeLow, pin, UNKNOWN, None, false),
             Read(Sensor(name, threshold, activeLow, pin, UNKNOWN, None, false)), now)
  }

  class DoorSensor {
    const queue: EventQueue
    const name: string
    const threshold: real
    var activeLow: bool
    var pin: Level
    var state: Reading
    var openSince: Option<real>
    var alertSent: bool

    function State(): Sensor
      reads this
    {
      Sensor(name, threshold, activeLow, pin, state, openSince, alertSent)
    }

    /** Construction and `setup`. */
    constructor (queue: EventQueue, name: string, activeLow: bool, threshold: real, pin: Level, now: real)
      ensures this.queue == queue
      ensures State() == Installed(name, threshold, activeLow, pin, now)
    {
      this.queue, this.name, this.threshold := queue, name, threshold;
      this.activeLow, this.pin, alertSent := activeLow, pin, false;
      var initial := if activeLow then (if pin == LOW then OPEN else CLOSED)
                     else (if pin == HIGH then OPEN else CLOSED);
      state := initial;
      openSince := if initial == OPEN then Some(now) else None;
    }

    /** The initial state goes out once the sensor is watched. */
    method Start()
      modifies queue
      ensures queue.items == Put(old(queue.items), Events.DoorState(name, state))
    {
      var ok := queue.PutNowait(Events.DoorState(name, state));
    }

    method ReadState() returns (r: Reading)
      ensures r == Read(State())
    {
      if activeLow {
        return if pin == LOW then OPEN else CLOSED;
      }
      return if pin == HIGH then OPEN else CLOSED;
    }

    method SetActiveLow(low: bool, now: real) returns (r: Reading)
      modifies this
      ensures State() == WithPolarity(old(State()), low, now)
      ensures r == state
    {
      activeLow := low;
      var newState := ReadState();
      if newState != state {
        state := newState;
        openSince := if newState == OPEN then Some(now) else None;
        alertSent := false;
      }
      return state;
    }

    /** The part of the edge callback after its pin read, which may be out of date by now. */
    method EdgeCallback(seen: Reading, now: real)
      modifies this, queue
      ensures State() == Observed(old(State()), seen, now)
      ensures queue.items == if seen == old(state) then old(queue.items)
                             else Put(old(queue.items), Events.DoorState(name, seen))
    {
      if seen == state {
        return;
      }
      state := seen;
      if seen == OPEN {
        openSince := Some(now);
        alertSent := false;
      } else {
        openSince := None;
        alertSent := false;
      }
      var ok := queue.PutNowait(Events.DoorState(name, seen));
    }

    /** One turn of the alert monitor's loop. */
    method Poll(now: real)
      modifies this, queue
      ensures State() == Polled(old(State()), now)
      ensures queue.items == if AlertDue(old(State()), now)
                             then Put(old(queue.items), DoorAlert(name, now - old(openSince).value))
                             else old(queue.items)
    {
      if state == OPEN && openSince.Some? && !alertSent {
        var elapsed := now - openSince.value;
        if elapsed >= threshold {
          alertSent := true;
          var ok := queue.PutNowait(DoorAlert(name, elapsed));
        }
      }
    }
  }

  // ----- Whole runs of one sensor: edges with arbitrary readings, polls and polarity changes.

  datatype Move = Pin(level: Level) | Edge(seen: Reading) | Poll | Polarity(activeLow: bool)

  datatype Moment = Moment(at: real, move: Move)

  function Moved(s: Sensor, m: Moment): Sensor {
    match m.move
    case Pin(level) => s.(pin := level)
    case Edge(seen) => Observed(s, seen, m.at)
    case Poll => Polled(s, m.at)
    case Polarity(activeLow) => WithPolarity(s, activeLow, m.at)
  }

  function After(s: Sensor, run: seq<Moment>): Sensor {
    if run == [] then s else Moved(After(s, run[..|run| - 1]), run[|run| - 1])
  }

  /** An edge callback always carries a definite reading. */
  predicate Definite(run: seq<Moment>) {
    forall i :: 0 <= i < |run| && run[i].move.Edge? ==> run[i].move.seen != UNKNOWN
  }

  /** When move `n - 1` happened, or setup when there is none. */
  function TimeBefore(start: real, run: seq<Moment>, n: nat): real
    requires n <= |run|
  {
    if n == 0 then start else run[n - 1].at
  }

  predicate InOrder(start: real, run: seq<Moment>) {
    forall i :: 0 <= i < |run| ==> TimeBefore(start, run, i) <= run[i].at
  }

  predicate OpenAfter(s: Sensor, run: seq<Moment>, i: nat)
    requires i <= |run|
  {
    After(s, run[..i]).state == OPEN
  }

  /** The `i`th move attempts an alert. */
  predicate AlertsAt(s: Sensor, run: seq<Moment>, i: nat)
    requires i < |run|
  {
    run[i].move.Poll? && AlertDue(After(s, run[..i]), run[i].at)
  }

  /** The door has been open without a break since move `since - 1`, or since setup when it is 0. */
  ghost predicate OpenThroughout(s: Sensor, run: seq<Moment>, since: nat, n: nat)
    requires since <= n <= |run|
  {
    && (forall j :: since <= j <= n ==> OpenAfter(s, run, j))
    && (since > 0 ==> !OpenAfter(s, run, since - 1))
  }

  ghost predicate NoAlertBetween(s: Sensor, run: seq<Moment>, from: nat, to: nat)
    requires to <= |run|
  {
    forall j :: from <= j < to ==> !AlertsAt(s, run, j)
  }

  predicate Fresh(s: Sensor, start: real) {
    s == Installed(s.name, s.threshold, s.activeLow, s.pin, start)
  }

  lemma AfterStep(s: Sensor, run: seq<Moment>, n: nat)
    requires n < |run|
    ensures After(s, run[..n + 1]) == Moved(After(s, run[..n]), run[n])
  {
    assert run[..n + 1][..n] == run[..n];
  }

  predicate Coherent(t: Sensor) {
    && t.state != UNKNOWN
    && (t.state == OPEN <==> t.openSince.Some?)
    && (t.alertSent ==> t.state == OPEN)
  }

  /** Under any interleaving of edges, polls and polarity changes the door is open exactly when an
      opening time is recorded, and only an open door has alerted. */
  lemma {:induction false} AlwaysCoherent(s: Sensor, start: real, run: seq<Moment>)
    requires Fresh(s, start) && Definite(run)
    ensures Coherent(After(s, run)) && After(s, run).threshold == s.threshold
  {
    if run != [] {
      AlwaysCoherent(s, start, run[..|run| - 1]);
    }
  }

  /** In a run that leaves the door open, finds the start of the current episode: the recorded time
      is when it began, and `alertSent` says whether it has alerted. */
  lemma {:induction false} Episode(s: Sensor, start: real, run: seq<Moment>, n: nat) returns (since: nat)
    requires Fresh(s, start) && Definite(run) && n <= |run| && OpenAfter(s, run, n)
    ensures since <= n && OpenThroughout(s, run, since, n)
    ensures After(s, run[..n]).openSince == Some(TimeBefore(start, run, since))
    ensures After(s, run[..n]).alertSent <==> !NoAlertBetween(s, run, since, n)
  {
    if n == 0 {
      assert run[..0] == [];
      since := 0;
    } else {
      AfterStep(s, run, n - 1);
      AlwaysCoherent(s, start, run[..n - 1]);
      if OpenAfter(s, run, n - 1) {
        since := Episode(s, start, run, n - 1);
        EpisodeContinues(s, run, since, n - 1);
      } else {
        since := n;
      }
    }
  }

  lemma EpisodeContinues(s: Sensor, run: seq<Moment>, since: nat, n: nat)
    requires since <= n < |run| && OpenThroughout(s, run, since, n) && OpenAfter(s, run, n + 1)
    ensures OpenThroughout(s, run, since, n + 1)
    ensures NoAlertBetween(s, run, since, n + 1) <==> NoAlertBetween(s, run, since, n) && !AlertsAt(s, run, n)
  {
  }

  /** Every alert is for the episode it is sent in, reports the time since that episode began, which
      reaches the threshold, and is the only one of its episode. */
  lemma AlertsAreJustified(s: Sensor, start: real, run: seq<Moment>, n: nat) returns (since: nat)
    requires Fresh(s, start) && Definite(run) && n < |run| && AlertsAt(s, run, n)
    ensures since <= n && OpenThroughout(s, run, since, n) && NoAlertBetween(s, run, since, n)
    ensures run[n].at - After(s, run[..n]).openSince.value == run[n].at - TimeBefore(start, run, since) >= s.threshold
    ensures forall later :: n < later < |run| && AlertsAt(s, run, later) ==>
              exists j :: n < j <= later && !OpenAfter(s, run, j)
  {
    since := Episode(s, start, run, n);
    AlwaysCoherent(s, start, run[..n]);
    forall later | n < later < |run| && AlertsAt(s, run, later)
      ensures exists j :: n < j <= later && !OpenAfter(s, run, j)
    {
      if forall j :: n < j <= later ==> OpenAfter(s, run, j) {
        AfterStep(s, run, n);
        AlertStays(s, run, n + 1, later);
        assert false;
      }
    }
  }

  lemma {:induction false} AlertStays(s: Sensor, run: seq<Moment>, n: nat, later: nat)
    requires n <= later <= |run| && After(s, run[..n]).alertSent
    requires forall j :: n <= j <= later ==> OpenAfter(s, run, j)
    ensures After(s, run[..later]).alertSent
    decreases later - n
  {
    if n < later {
      AfterStep(s, run, n);
      assert OpenAfter(s, run, n) && OpenAfter(s, run, n + 1);
      AlertStays(s, run, n + 1, later);
    }
  }

  /** Every edge callback acts on the pin's level at that time. */
  predicate Live(s: Sensor, run: seq<Moment>) {
    forall i :: 0 <= i < |run| && run[i].move.Edge? ==> run[i].move.seen == Read(After(s, run[..i]))
  }

  /** Since the pin last changed before move `n`, an edge callback or a polarity change has read it. */
  predicate Settled(s: Sensor, run: seq<Moment>, n: nat)
    requires n <= |run|
  {
    n == 0 ||
    match run[n - 1].move
    case Pin(level) => level == After(s, run[..n - 1]).pin && Settled(s, run, n - 1)
    case Poll => Settled(s, run, n - 1)
    case _ => true
  }

  /** When callbacks act on the pin as it is and one has run since the pin changed, the state is what the
      pin says under the polarity in force. */
  lemma {:induction false} StateIsPin(s: Sensor, start: real, run: seq<Moment>, n: nat)
    requires Fresh(s, start) && Live(s, run) && n <= |run| && Settled(s, run, n)
    ensures After(s, run[..n]).state == Read(After(s, run[..n]))
  {
    if n == 0 {
      assert run[..0] == [];
    } else {
      AfterStep(s, run, n - 1);
      if run[n - 1].move.Pin? || run[n - 1].move.Poll? {
        StateIsPin(s, start, run, n - 1);
      }
    }
  }

  /** A low pin means open exactly under active-low wiring, and only a definite state is ever read. */
  lemma ReadMeansPin(s: Sensor)
    ensures Read(s) != UNKNOWN && (Read(s) == OPEN <==> (s.pin == LOW <==> s.activeLow))
  {
  }

  /** The episode that began with move `since - 1`, or at setup, still lasts at move `n`, has not alerted and
      has reached the threshold. */
  ghost predicate Overdue(s: Sensor, start: real, run: seq<Moment>, since: nat, n: nat)
    requires since <= n < |run|
  {
    && OpenThroughout(s, run, since, n) && NoAlertBetween(s, run, since, n)
    && run[n].at - TimeBefore(start, run, since) >= s.threshold
  }

  lemma EpisodesDiffer(s: Sensor, run: seq<Moment>, a: nat, b: nat, n: nat)
    requires a < b <= n <= |run| && OpenThroughout(s, run, a, n)
    ensures !OpenThroughout(s, run, b, n)
  {
    assert OpenAfter(s, run, b - 1);
  }

  lemma OneEpisode(s: Sensor, run: seq<Moment>, a: nat, b: nat, n: nat)
    requires a <= n <= |run| && b <= n && OpenThroughout(s, run, a, n) && OpenThroughout(s, run, b, n)
    ensures a == b
  {
    if a < b {
      EpisodesDiffer(s, run, a, b, n);
    } else if b < a {
      EpisodesDiffer(s, run, b, a, n);
    }
  }

  /** A poll alerts if and only if the door's current episode has not alerted yet and has reached the
      threshold. */
  lemma PollAlertsIff(s: Sensor, start: real, run: seq<Moment>, n: nat)
    requires Fresh(s, start) && Definite(run) && n < |run| && run[n].move.Poll?
    ensures AlertsAt(s, run, n) <==> exists since: nat :: since <= n && Overdue(s, start, run, since, n)
  {
    if AlertsAt(s, run, n) {
      var since := AlertsAreJustified(s, start, run, n);
      assert Overdue(s, start, run, since, n);
    }
    if since: nat :| since <= n && Overdue(s, start, run, since, n) {
      assert OpenAfter(s, run, n);
      AlwaysCoherent(s, start, run[..n]);
      var began := Episode(s, start, run, n);
      OneEpisode(s, run, since, began, n);
    }
  }

  /** The time of the last poll before move `n`; setup counts as one. */
  function LastPoll(start: real, run: seq<Moment>, n: nat): real
    requires n <= |run|
  {
    if n == 0 then start else if run[n - 1].move.Poll? then run[n - 1].at else LastPoll(start, run, n - 1)
  }

  const POLL_SECONDS := 5.0

  /** No move happens more than five seconds after the poll before it. */
  predicate PolledOnTime(start: real, run: seq<Moment>) {
    forall i :: 0 <= i < |run| ==> run[i].at <= LastPoll(start, run, i) + POLL_SECONDS
  }

  /** An open door without an alert was last polled at most `threshold` after it opened. */
  predicate Recent(t: Sensor, lastPoll: real) {
    t.state == OPEN && !t.alertSent ==> t.openSince.Some? && lastPoll <= t.openSince.value + t.threshold
  }

  lemma StepKeepsRecent(t: Sensor, m: Moment, lastPoll: real)
    requires Coherent(t) && Recent(t, lastPoll) && lastPoll <= m.at && 0.0 <= t.threshold
    ensures Recent(Moved(t, m), if m.move.Poll? then m.at else lastPoll)
  {
  }

  lemma {:induction false} UnalertedIsRecent(s: Sensor, start: real, run: seq<Moment>, n: nat)
    requires Fresh(s, start) && Definite(run) && InOrder(start, run) && n <= |run| && 0.0 <= s.threshold
    ensures Recent(After(s, run[..n]), LastPoll(start, run, n))
    ensures LastPoll(start, run, n) <= TimeBefore(start, run, n)
  {
    if n == 0 {
      assert run[..0] == [];
    } else {
      UnalertedIsRecent(s, start, run, n - 1);
      AfterStep(s, run, n - 1);
      AlwaysCoherent(s, start, run[..n - 1]);
      assert TimeBefore(start, run, n - 1) <= run[n - 1].at;
      StepKeepsRecent(After(s, run[..n - 1]), run[n - 1], LastPoll(start, run, n - 1));
    }
  }

  /** With polls at most five seconds apart, a door that is still open without an alert has been open
      at most five seconds past the threshold, and no alert comes later than that. */
  lemma AlertIsPrompt(s: Sensor, start: real, run: seq<Moment>, n: nat)
    requires Fresh(s, start) && Definite(run) && InOrder(start, run) && PolledOnTime(start, run)
    requires n < |run| && 0.0 <= s.threshold
    ensures var t := After(s, run[..n]);
            t.state == OPEN && !t.alertSent ==>
              t.openSince.Some? && run[n].at - t.openSince.value <= s.threshold + 5.0
  {
    AlwaysCoherent(s, start, run[..n]);
    UnalertedIsRecent(s, start, run, n);
  }
}
