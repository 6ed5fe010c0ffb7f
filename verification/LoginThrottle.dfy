/** The web admin's login lockout: the table of failures, the login request that uses it, and
    what it guarantees when several worker threads interleave their requests. */
module LoginThrottle {
  import opened Basics

  datatype Entry = Entry(count: nat, last: real)

  type Table = map<string, Entry>

  datatype Config = Config(max: nat, lockout: real)

  function Lookup(table: Table, key: string): Entry {
    if key in table then table[key] else Entry(0, 0.0)
  }

  /** The seconds `key` still has to wait, and the table once an expired entry is dropped. */
  function Wait(cfg: Config, table: Table, key: string, now: real): (real, Table) {
    var entry := Lookup(table, key);
    if entry.count < cfg.max then (0.0, table)
    else
      var remaining := cfg.lockout - (now - entry.last);
      if remaining <= 0.0 then (0.0, table - {key}) else (remaining, table)
  }

  function Fail(table: Table, key: string, now: real): Table {
    table[key := Entry(Lookup(table, key).count + 1, now)]
  }

  /** How a login that got past the throttle ends. */
  datatype Outcome = Failed | Unavailable | LoggedIn

  function Finish(table: Table, key: string, outcome: Outcome, now: real): Table {
    match outcome
    case Failed => Fail(table, key, now)
    case Unavailable => table
    case LoggedIn => table - {key}
  }

  datatype Pam = PamDown | PamRejects | PamAccepts

  function Status(plausible: bool, pam: Pam, isAdmin: bool): int {
    if !plausible then 401
    else match pam
      case PamDown => 500
      case PamRejects => 401
      case PamAccepts => if isAdmin then 302 else 403
  }

  function Judge(plausible: bool, pam: Pam, isAdmin: bool): Outcome {
    if !plausible then Failed
    else if pam == PamDown then Unavailable
    else if pam == PamRejects || !isAdmin then Failed
    else LoggedIn
  }

  /** What the request says, what PAM and the group database answer, when the throttle is checked and when
      the verdict falls. */
  datatype Attempt = Attempt(plausible: bool, pam: Pam, isAdmin: bool, checked: real, judged: real)

  /** The status and the table after one request served alone. */
  function Served(cfg: Config, table: Table, client: string, a: Attempt): (int, Table) {
    var (wait, kept) := Wait(cfg, table, client, a.checked);
    if wait > 0.0 then (429, kept)
    else (Status(a.plausible, a.pam, a.isAdmin), Finish(kept, client, Judge(a.plausible, a.pam, a.isAdmin), a.judged))
  }

  /** The client has used up its attempts and its lockout has not passed. */
  predicate LockedOut(cfg: Config, entry: Entry, now: real) {
    cfg.max <= entry.count && now - entry.last < cfg.lockout
  }

  predicate LogsInRightly(a: Attempt) {
    a.plausible && a.pam == PamAccepts && a.isAdmin
  }

  predicate CannotBeJudged(a: Attempt) {
    a.plausible && a.pam == PamDown
  }

  class LoginThrottle {
    const cfg: Config
    var failures: Table

    constructor (maxAttempts: nat, lockoutSeconds: real)
      ensures cfg == Config(maxAttempts, lockoutSeconds) && failures == map[]
    {
      cfg := Config(maxAttempts, lockoutSeconds);
      failures := map[];
    }

    method LockedFor(key: string, now: real) returns (wait: real)
      modifies this
      ensures (wait, failures) == Wait(cfg, old(failures), key, now)
      ensures var entry := Lookup(old(failures), key);
              if LockedOut(cfg, entry, now) then wait == entry.last + cfg.lockout - now && failures == old(failures)
              else wait == 0.0 && failures == if entry.count < cfg.max then old(failures) else old(failures) - {key}
    {
      var count, last := 0, 0.0;
      if key in failures {
        count, last := failures[key].count, failures[key].last;
      }
      if count < cfg.max {
        return 0.0;
      }
      var remaining := cfg.lockout - (now - last);
      if remaining <= 0.0 {
        failures := failures - {key};
        return 0.0;
      }
      return remaining;
    }

    method RecordFailure(key: string, now: real)
      modifies this
      ensures failures == Fail(old(failures), key, now)
    {
      var count := 0;
      if key in failures {
        count := failures[key].count;
      }
      failures := failures[key := Entry(count + 1, now)];
    }

    method Reset(key: string)
      modifies this
      ensures failures == old(failures) - {key}
    {
      failures := failures - {key};
    }

    /** One login request served alone. A locked-out client is turned away. Otherwise a plausible name that
        PAM accepts and that is an admin's logs in and is forgiven its failures, a request that PAM cannot
        judge changes nothing, and every other one counts as a failure. */
    method Login(client: string, a: Attempt) returns (status: int)
      modifies this
      ensures (status, failures) == Served(cfg, old(failures), client, a)
      ensures var entry := Lookup(old(failures), client);
              var count := if entry.count < cfg.max then entry.count else 0;
              if LockedOut(cfg, entry, a.checked) then status == 429 && failures == old(failures)
              else
                && (status == 302 <==> LogsInRightly(a)) && (status == 500 <==> CannotBeJudged(a)) && status != 429
                && (LogsInRightly(a) ==> client !in failures)
                && (CannotBeJudged(a) ==> Lookup(failures, client).count == count)
                && (!LogsInRightly(a) && !CannotBeJudged(a) ==>
                      && (status == 403 <==> a.plausible && a.pam == PamAccepts) && (status == 401 || status == 403)
                      && client in failures && failures[client] == Entry(count + 1, a.judged))
      ensures failures - {client} == old(failures) - {client}
    {
      var wait := LockedFor(client, a.checked);
      if wait > 0.0 {
        return 429;
      }
      if !a.plausible {
        RecordFailure(client, a.judged);
        return 401;
      }
      if a.pam == PamDown {
        return 500;
      }
      if a.pam == PamRejects {
        RecordFailure(client, a.judged);
        return 401;
      }
      if !a.isAdmin {
        RecordFailure(client, a.judged);
        return 403;
      }
      Reset(client);
      return 302;
    }
  }

  // ----- What a client meets who keeps failing.

  /** The table after the client's requests, served one after the other. */
  function ServedAll(cfg: Config, table: Table, client: string, attempts: seq<Attempt>): Table {
    if attempts == [] then table
    else Served(cfg, ServedAll(cfg, table, client, attempts[..|attempts| - 1]), client, attempts[|attempts| - 1]).1
  }

  predicate AllFail(attempts: seq<Attempt>) {
    forall i :: 0 <= i < |attempts| ==> !LogsInRightly(attempts[i]) && !CannotBeJudged(attempts[i])
  }

  lemma {:induction false} FailuresCount(cfg: Config, table: Table, client: string, attempts: seq<Attempt>)
    requires client !in table && AllFail(attempts) && |attempts| <= cfg.max
    ensures attempts != [] ==>
              Lookup(ServedAll(cfg, table, client, attempts), client) == Entry(|attempts|, attempts[|attempts| - 1].judged)
  {
    if attempts != [] {
      FailuresCount(cfg, table, client, attempts[..|attempts| - 1]);
    }
  }

  /** After failures in a row, up to as many as the limit, the next login is turned away if and only if the
      limit is reached and less than a lockout has passed since the last failure. */
  lemma FailuresLockOut(cfg: Config, table: Table, client: string, attempts: seq<Attempt>, next: Attempt)
    requires client !in table && AllFail(attempts) && 1 <= |attempts| <= cfg.max
    ensures Served(cfg, ServedAll(cfg, table, client, attempts), client, next).0 == 429
       <==> |attempts| == cfg.max && next.checked - attempts[|attempts| - 1].judged < cfg.lockout
  {
    FailuresCount(cfg, table, client, attempts);
  }

  // ----- Worker threads: the check and the verdict of a request are separate critical sections.

  datatype Failure = Failure(key: string, at: real)

  /** `threads[i]` is the client whose login thread `i` is judging; `failures` is every failure recorded. */
  datatype State = State(now: real, table: Table, threads: seq<Option<string>>, failures: seq<Failure>)

  datatype Action = Tick(to: real) | Check(thread: nat, key: string) | Verdict(thread: nat, outcome: Outcome)

  predicate Enabled(s: State, a: Action) {
    match a
    case Tick(to) => s.now <= to
    case Check(i, _) => i < |s.threads| && s.threads[i].None?
    case Verdict(i, _) => i < |s.threads| && s.threads[i].Some?
  }

  function Next(cfg: Config, s: State, a: Action): State
    requires Enabled(s, a)
  {
    match a
    case Tick(to) => s.(now := to)
    case Check(i, key) =>
      var (wait, table) := Wait(cfg, s.table, key, s.now);
      if wait > 0.0 then s.(table := table)
      else s.(table := table, threads := s.threads[i := Some(key)])
    case Verdict(i, outcome) =>
      var key := s.threads[i].value;
      s.(table := Finish(s.table, key, outcome, s.now),
         threads := s.threads[i := None],
         failures := if outcome.Failed? then s.failures + [Failure(key, s.now)] else s.failures)
  }

  predicate Start(s: State, threads: nat) {
    && s.table == map[] && s.failures == []
    && s.threads == seq(threads, _ => None)
  }

  ghost predicate Run(cfg: Config, s: State, actions: seq<Action>, t: State)
    decreases |actions|
  {
    if actions == [] then s == t
    else Enabled(s, actions[0]) && Run(cfg, Next(cfg, s, actions[0]), actions[1..], t)
  }

  /** No action of the run logs `key` in, starting from `s`. */
  ghost predicate NoLogin(cfg: Config, s: State, actions: seq<Action>, key: string)
    decreases |actions|
  {
    actions == [] ||
    (Enabled(s, actions[0]) ==>
       && !LogsIn(s, actions[0], key)
       && NoLogin(cfg, Next(cfg, s, actions[0]), actions[1..], key))
  }

  predicate LogsIn(s: State, a: Action, key: string)
    requires Enabled(s, a)
  {
    a.Verdict? && a.outcome.LoggedIn? && s.threads[a.thread] == Some(key)
  }

  /** The times at which a failure of `key` was recorded, in order. */
  function Times(failures: seq<Failure>, key: string): seq<real> {
    if failures == [] then []
    else
      var last := failures[|failures| - 1];
      Times(failures[..|failures| - 1], key) + (if last.key == key then [last.at] else [])
  }

  function InFlight(threads: seq<Option<string>>, key: string): nat {
    if threads == [] then 0
    else (if threads[0] == Some(key) then 1 else 0) + InFlight(threads[1..], key)
  }

  predicate Within(at: real, start: real, length: real) {
    start <= at < start + length
  }

  /** How many of `times` fall in the half-open window of `length` that opens at `start`. */
  function CountWithin(times: seq<real>, start: real, length: real): nat {
    if times == [] then 0
    else
      CountWithin(times[..|times| - 1], start, length)
      + (if Within(times[|times| - 1], start, length) then 1 else 0)
  }

  /** Times `bound` or more places apart are at least `length` apart. */
  ghost predicate Spaced(times: seq<real>, bound: nat, length: real) {
    forall i, j :: 0 <= i && i + bound <= j < |times| ==> times[j] - times[i] >= length
  }

  function Attempts(cfg: Config): nat {
    if cfg.max == 0 then 1 else cfg.max
  }

  // The first failure of the counter's current streak is `times[|times| - count]`: everything
  // earlier was recorded at least a whole lockout before it.
  ghost predicate Timed(times: seq<real>, entry: Entry, now: real, lockout: real) {
    var streak := |times| - entry.count;
    && 0 <= streak
    && (entry.count > 0 ==> entry.last == times[|times| - 1])
    && (forall i :: 0 <= i < |times| ==> times[i] <= times[|times| - 1] <= now)
    && (forall i :: 0 <= i < streak ==> now - times[i] >= lockout)
  }

  ghost predicate Inv(cfg: Config, s: State, threads: nat, key: string) {
    var times, entry := Times(s.failures, key), Lookup(s.table, key);
    && |s.threads| == threads
    && entry.count + InFlight(s.threads, key) <= Attempts(cfg) - 1 + threads
    && Timed(times, entry, s.now, cfg.lockout)
    && Spaced(times, Attempts(cfg) - 1 + threads, cfg.lockout)
  }

  lemma {:induction false} InFlightUpdate(threads: seq<Option<string>>, i: nat, v: Option<string>, key: string)
    requires i < |threads|
    ensures InFlight(threads[i := v], key) + (if threads[i] == Some(key) then 1 else 0)
         == InFlight(threads, key) + (if v == Some(key) then 1 else 0)
  {
    if i > 0 {
      assert threads[i := v][1..] == threads[1..][i - 1 := v];
      InFlightUpdate(threads[1..], i - 1, v, key);
    } else {
      assert threads[i := v][1..] == threads[1..];
    }
  }

  lemma {:induction false} InFlightBound(threads: seq<Option<string>>, key: string)
    ensures InFlight(threads, key) <= |threads|
  {
    if threads != [] {
      InFlightBound(threads[1..], key);
    }
  }

  lemma TimesAppend(failures: seq<Failure>, f: Failure, key: string)
    ensures Times(failures + [f], key) == Times(failures, key) + (if f.key == key then [f.at] else [])
  {
    assert (failures + [f])[..|failures|] == failures;
  }

  lemma SpacedAppend(times: seq<real>, at: real, bound: nat, length: real, streak: nat)
    requires Spaced(times, bound, length)
    requires streak <= |times| < bound + streak
    requires forall i :: 0 <= i < streak ==> at - times[i] >= length
    ensures Spaced(times + [at], bound, length)
  {
    var times' := times + [at];
    forall i, j | 0 <= i && i + bound <= j < |times'|
      ensures times'[j] - times'[i] >= length
    {
      if j == |times| && 0 < bound {
        assert i < streak;
      }
    }
  }

  lemma ExpiryStartsStreak(times: seq<real>, entry: Entry, now: real, lockout: real)
    requires Timed(times, entry, now, lockout) && (entry.count > 0 ==> now - entry.last >= lockout)
    ensures Timed(times, Entry(0, 0.0), now, lockout)
  {
    forall i | 0 <= i < |times|
      ensures now - times[i] >= lockout
    {
      if i >= |times| - entry.count {
        assert times[i] <= entry.last;
      }
    }
  }

  lemma CheckKeepsInv(cfg: Config, s: State, i: nat, k: string, threads: nat, key: string)
    requires Enabled(s, Check(i, k)) && Inv(cfg, s, threads, key)
    ensures Inv(cfg, Next(cfg, s, Check(i, k)), threads, key)
  {
    var t := Next(cfg, s, Check(i, k));
    InFlightUpdate(s.threads, i, Some(k), key);
    InFlightBound(t.threads, key);
    if Lookup(s.table, key) != Lookup(t.table, key) {
      ExpiryStartsStreak(Times(s.failures, key), Lookup(s.table, key), s.now, cfg.lockout);
    }
  }

  lemma TimedAppend(times: seq<real>, entry: Entry, now: real, lockout: real)
    requires Timed(times, entry, now, lockout)
    ensures Timed(times + [now], Entry(entry.count + 1, now), now, lockout)
  {
  }

  /** A verdict that records a failure of `key` extends the current streak. */
  lemma FailureKeepsInv(cfg: Config, s: State, i: nat, threads: nat, key: string)
    requires Enabled(s, Verdict(i, Failed)) && s.threads[i] == Some(key)
    requires Inv(cfg, s, threads, key)
    ensures Inv(cfg, Next(cfg, s, Verdict(i, Failed)), threads, key)
  {
    InFlightUpdate(s.threads, i, None, key);
    TimesAppend(s.failures, Failure(key, s.now), key);
    var times, entry := Times(s.failures, key), Lookup(s.table, key);
    TimedAppend(times, entry, s.now, cfg.lockout);
    SpacedAppend(times, s.now, Attempts(cfg) - 1 + threads, cfg.lockout, |times| - entry.count);
  }

  /** Any other verdict leaves the counter of `key` alone. */
  lemma OtherVerdictKeepsInv(cfg: Config, s: State, i: nat, outcome: Outcome, threads: nat, key: string)
    requires Enabled(s, Verdict(i, outcome)) && !LogsIn(s, Verdict(i, outcome), key) && Inv(cfg, s, threads, key)
    requires !(outcome.Failed? && s.threads[i] == Some(key))
    ensures Inv(cfg, Next(cfg, s, Verdict(i, outcome)), threads, key)
  {
    var t := Next(cfg, s, Verdict(i, outcome));
    InFlightUpdate(s.threads, i, None, key);
    TimesAppend(s.failures, Failure(s.threads[i].value, s.now), key);
    assert Times(t.failures, key) == Times(s.failures, key);
    assert Lookup(t.table, key) == Lookup(s.table, key);
  }

  lemma StepKeepsInv(cfg: Config, s: State, a: Action, threads: nat, key: string)
    requires Enabled(s, a) && !LogsIn(s, a, key) && Inv(cfg, s, threads, key)
    ensures Inv(cfg, Next(cfg, s, a), threads, key)
  {
    if a.Check? {
      CheckKeepsInv(cfg, s, a.thread, a.key, threads, key);
    } else if a.Verdict? {
      if a.outcome.Failed? && s.threads[a.thread] == Some(key) {
        FailureKeepsInv(cfg, s, a.thread, threads, key);
      } else {
        OtherVerdictKeepsInv(cfg, s, a.thread, a.outcome, threads, key);
      }
    }
  }

  lemma {:induction false} RunKeepsInv(cfg: Config, s: State, actions: seq<Action>, t: State, threads: nat, key: string)
    requires Inv(cfg, s, threads, key)
    requires Run(cfg, s, actions, t) && NoLogin(cfg, s, actions, key)
    ensures Inv(cfg, t, threads, key)
    decreases |actions|
  {
    if actions != [] {
      StepKeepsInv(cfg, s, actions[0], threads, key);
      RunKeepsInv(cfg, Next(cfg, s, actions[0]), actions[1..], t, threads, key);
    }
  }

  lemma {:induction false} IdleThreads(threads: nat, key: string)
    ensures InFlight(seq(threads, _ => None), key) == 0
  {
    if threads > 0 {
      var idle: seq<Option<string>> := seq(threads, _ => None);
      assert idle[1..] == seq(threads - 1, _ => None);
      IdleThreads(threads - 1, key);
    }
  }

  lemma {:induction false} CountSkips(times: seq<real>, m: nat, start: real, length: real)
    requires m <= |times| && forall i :: 0 <= i < m ==> !Within(times[i], start, length)
    ensures CountWithin(times, start, length) <= |times| - m
  {
    if times != [] {
      CountSkips(times[..|times| - 1], if m < |times| then m else m - 1, start, length);
    }
  }

  lemma {:induction false} SpacedCount(times: seq<real>, bound: nat, start: real, length: real)
    requires Spaced(times, bound, length)
    ensures CountWithin(times, start, length) <= bound
  {
    if times != [] {
      var n := |times|;
      if Within(times[n - 1], start, length) && bound < n {
        CountSkips(times, n - bound, start, length);
      } else if bound >= n {
        CountSkips(times, 0, start, length);
      } else {
        SpacedCount(times[..n - 1], bound, start, length);
      }
    }
  }

  /** With `threads` workers and no successful login from `key`, every window of one lockout
      holds at most `max + threads - 1` recorded failures, however the requests interleave.
      A limit of zero allows as much as a limit of one. */
  lemma WindowBound(cfg: Config, s: State, actions: seq<Action>, t: State, threads: nat, key: string, start: real)
    requires Start(s, threads)
    requires Run(cfg, s, actions, t) && NoLogin(cfg, s, actions, key)
    ensures CountWithin(Times(t.failures, key), start, cfg.lockout) <= Attempts(cfg) + threads - 1
  {
    IdleThreads(threads, key);
    RunKeepsInv(cfg, s, actions, t, threads, key);
    SpacedCount(Times(t.failures, key), Attempts(cfg) - 1 + threads, start, cfg.lockout);
  }

  // ----- The bound is attained: every worker passes the check before the last failure is recorded.

  ghost function Failures(cfg: Config, s: State, key: string): nat {
    CountWithin(Times(s.failures, key), s.now, cfg.lockout)
  }

  lemma FailureCounts(cfg: Config, s: State, i: nat, key: string)
    requires cfg.lockout > 0.0 && Enabled(s, Verdict(i, Failed)) && s.threads[i] == Some(key)
    ensures Failures(cfg, Next(cfg, s, Verdict(i, Failed)), key) == Failures(cfg, s, key) + 1
  {
    TimesAppend(s.failures, Failure(key, s.now), key);
    var times := Times(s.failures, key);
    assert (times + [s.now])[..|times|] == times;
  }

  lemma {:induction false} FinishAll(cfg: Config, s: State, i: nat, key: string) returns (actions: seq<Action>, t: State)
    requires cfg.lockout > 0.0 && i <= |s.threads|
    requires forall j :: i <= j < |s.threads| ==> s.threads[j] == Some(key)
    ensures Run(cfg, s, actions, t) && NoLogin(cfg, s, actions, key) && t.now == s.now
    ensures Failures(cfg, t, key) == Failures(cfg, s, key) + |s.threads| - i
    decreases |s.threads| - i
  {
    if i == |s.threads| {
      actions, t := [], s;
    } else {
      var step := Verdict(i, Failed);
      FailureCounts(cfg, s, i, key);
      var rest;
      rest, t := FinishAll(cfg, Next(cfg, s, step), i + 1, key);
      actions := [step] + rest;
    }
  }

  lemma {:induction false} CheckAll(cfg: Config, s: State, i: nat, key: string) returns (actions: seq<Action>, t: State)
    requires cfg.lockout > 0.0 && i <= |s.threads| && Lookup(s.table, key).count < cfg.max
    requires forall j :: 0 <= j < i ==> s.threads[j] == Some(key)
    requires forall j :: i <= j < |s.threads| ==> s.threads[j].None?
    ensures Run(cfg, s, actions, t) && NoLogin(cfg, s, actions, key) && t.now == s.now
    ensures Failures(cfg, t, key) == Failures(cfg, s, key) + |s.threads|
    decreases |s.threads| - i
  {
    if i == |s.threads| {
      actions, t := FinishAll(cfg, s, 0, key);
    } else {
      var step := Check(i, key);
      var rest;
      rest, t := CheckAll(cfg, Next(cfg, s, step), i + 1, key);
      actions := [step] + rest;
    }
  }

  lemma {:induction false} WarmUp(cfg: Config, s: State, n: nat, key: string) returns (actions: seq<Action>, t: State)
    requires cfg.lockout > 0.0 && 0 < |s.threads| && Lookup(s.table, key).count + n == cfg.max - 1
    requires forall j :: 0 <= j < |s.threads| ==> s.threads[j].None?
    ensures Run(cfg, s, actions, t) && NoLogin(cfg, s, actions, key) && t.now == s.now
    ensures Failures(cfg, t, key) == Failures(cfg, s, key) + n + |s.threads|
    decreases n
  {
    if n == 0 {
      actions, t := CheckAll(cfg, s, 0, key);
    } else {
      var s1 := Next(cfg, s, Check(0, key));
      var s2 := Next(cfg, s1, Verdict(0, Failed));
      FailureCounts(cfg, s1, 0, key);
      var rest;
      rest, t := WarmUp(cfg, s2, n - 1, key);
      actions := [Check(0, key)] + ([Verdict(0, Failed)] + rest);
      assert Run(cfg, s1, [Verdict(0, Failed)] + rest, t);
    }
  }

  /** No smaller bound holds: some run records `max + threads - 1` failures inside one window. */
  lemma WindowBoundAttained(cfg: Config, s: State, threads: nat, key: string) returns (actions: seq<Action>, t: State)
    requires 1 <= cfg.max && 1 <= threads && cfg.lockout > 0.0 && Start(s, threads)
    ensures Run(cfg, s, actions, t) && NoLogin(cfg, s, actions, key)
    ensures CountWithin(Times(t.failures, key), s.now, cfg.lockout) == cfg.max + threads - 1
  {
    actions, t := WarmUp(cfg, s, cfg.max - 1, key);
  }
}
