/** The audit log explains the door: replaying its tag records gives the tags in force at every
    moment, and they justify each decision the log records. */
module Audit {
  import opened Basics
  import opened Events
  import opened LockController
  import opened Dispatcher
  import opened DoorSystem
  import ConfigFile

  /** What a record says happened to the enrolled tags. Records without a UID, whatever their type,
      say nothing: anyone who may log in can have one written. */
  function Replayed(tags: map<string, string>, r: Record): map<string, string> {
    if r.uid.None? || r.name.None? then tags
    else match r.kind
      case TAG_ADDED => tags[r.uid.value := r.name.value]
      case TAG_RENAMED => tags[r.uid.value := r.name.value]
      case TAG_REMOVED => tags - {r.uid.value}
      case _ => tags
  }

  function Replay(tags: map<string, string>, log: seq<Record>): map<string, string> {
    if log == [] then tags else Replayed(Replay(tags, log[..|log| - 1]), log[|log| - 1])
  }

  /** A record about a UID is true of the tags in force when it was written. */
  predicate Justified(tags: map<string, string>, r: Record) {
    r.uid.Some? ==>
      var uid := r.uid.value;
      match r.kind
      case ACCESS_GRANTED => uid in tags && r.name == Some(tags[uid]) && r.granted == Some(true)
      case ACCESS_DENIED => uid !in tags && r.granted == Some(false)
      case TAG_SCAN_DUPLICATE => uid in tags && r.name == Some(tags[uid])
      case TAG_ADDED => uid !in tags && r.name.Some?
      case TAG_REMOVED => uid in tags && r.name == Some(tags[uid])
      case TAG_RENAMED => uid in tags && r.name.Some?
      case _ => false
  }

  ghost predicate Explained(tags: map<string, string>, log: seq<Record>) {
    forall i :: 0 <= i < |log| ==> Justified(Replay(tags, log[..i]), log[i])
  }

  /** The unlocks that the log records. */
  function Grants(log: seq<Record>): nat {
    if log == [] then 0
    else Grants(log[..|log| - 1]) + (if log[|log| - 1].granted == Some(true) then 1 else 0)
  }

  ghost predicate Audited(tags: map<string, string>, d: Door) {
    && d.storeUp
    && Replay(tags, d.log) == d.config.authorized
    && Explained(tags, d.log)
    && Grants(d.log) == d.lock.nextTimer
  }

  /** One step of the service and the one record it leaves. */
  predicate Accounts(d: Door, after: Door, r: Record) {
    && after.storeUp == d.storeUp && after.log == d.log + [r]
    && Justified(d.config.authorized, r)
    && after.config.authorized == Replayed(d.config.authorized, r)
    && after.lock.nextTimer == d.lock.nextTimer + (if r.granted == Some(true) then 1 else 0)
  }

  predicate Silent(d: Door, after: Door) {
    && after.storeUp == d.storeUp && after.log == d.log
    && after.config.authorized == d.config.authorized && after.lock.nextTimer == d.lock.nextTimer
  }

  lemma RecordKeepsAudit(tags: map<string, string>, d: Door, after: Door, r: Record)
    requires Audited(tags, d) && Accounts(d, after, r)
    ensures Audited(tags, after)
  {
    assert after.log[..|d.log|] == d.log;
    forall i | 0 <= i < |after.log|
      ensures Justified(Replay(tags, after.log[..i]), after.log[i])
    {
      if i < |d.log| {
        assert after.log[..i] == d.log[..i] && after.log[i] == d.log[i];
      }
    }
  }

  lemma NfcAccounts(d: Door, uid: string, env: Env) returns (r: Record)
    requires d.storeUp && !env.logFails
    ensures var after := HandleNfc(d, uid, env);
            Silent(d, after) || Accounts(d, after, r)
  {
    var after := HandleNfc(d, uid, env);
    r := NewRecord(d, after);
  }

  lemma NfcAudited(tags: map<string, string>, d: Door, uid: string, env: Env)
    requires Audited(tags, d) && !env.logFails
    ensures Audited(tags, HandleNfc(d, uid, env))
  {
    var after := HandleNfc(d, uid, env);
    var r := NfcAccounts(d, uid, env);
    if !Silent(d, after) {
      RecordKeepsAudit(tags, d, after, r);
    }
  }

  /** A polarity change leaves two records, neither of them about a UID or an unlock. */
  lemma DoorPolarityRecords(d: Door, door: string, activeLow: Option<bool>, actor: string, env: Env) returns (first: Record, second: Record)
    requires d.storeUp && !env.logFails
    ensures var after := Dispatcher.SetDoorPolarity(d, door, activeLow, actor, env).0;
            && Accounts(d, d.(log := d.log + [first]), first)
            && (Silent(d, after) || Accounts(d.(log := d.log + [first]), after, second))
  {
    var after := Dispatcher.SetDoorPolarity(d, door, activeLow, actor, env).0;
    first, second := Entry(DOOR_STATE), Entry(SET_DOOR_POLARITY);
    if |after.log| == |d.log| + 2 {
      first, second := after.log[|d.log|], after.log[|d.log| + 1];
    }
  }

  lemma DoorPolarityAudited(tags: map<string, string>, d: Door, door: string, activeLow: Option<bool>, actor: string, env: Env)
    requires Audited(tags, d) && !env.logFails
    ensures Audited(tags, Dispatcher.SetDoorPolarity(d, door, activeLow, actor, env).0)
  {
    var after := Dispatcher.SetDoorPolarity(d, door, activeLow, actor, env).0;
    var first, second := DoorPolarityRecords(d, door, activeLow, actor, env);
    if !Silent(d, after) {
      var between := d.(log := d.log + [first]);
      RecordKeepsAudit(tags, d, between, first);
      RecordKeepsAudit(tags, between, after, second);
    }
  }

  /** The record after those of `d`, or any when there is none. */
  function NewRecord(d: Door, after: Door): Record {
    if |after.log| > |d.log| then after.log[|d.log|] else Entry(WEB_LOCK)
  }

  lemma AddTagAccounts(d: Door, uid: string, name: string, actor: string, env: Env) returns (r: Record)
    requires d.storeUp && !env.logFails
    ensures var after := Dispatcher.AddTag(d, uid, name, actor, env).0;
            Silent(d, after) || Accounts(d, after, r)
  {
    var after := Dispatcher.AddTag(d, uid, name, actor, env).0;
    r := NewRecord(d, after);
  }

  lemma RemoveTagAccounts(d: Door, uid: string, actor: string, env: Env) returns (r: Record)
    requires d.storeUp && !env.logFails
    ensures var after := Dispatcher.RemoveTag(d, uid, actor, env).0;
            Silent(d, after) || Accounts(d, after, r)
  {
    var after := Dispatcher.RemoveTag(d, uid, actor, env).0;
    r := NewRecord(d, after);
  }

  lemma RenameTagAccounts(d: Door, uid: string, name: string, actor: string, env: Env) returns (r: Record)
    requires d.storeUp && !env.logFails
    ensures var after := Dispatcher.RenameTag(d, uid, name, actor, env).0;
            Silent(d, after) || Accounts(d, after, r)
  {
    var after := Dispatcher.RenameTag(d, uid, name, actor, env).0;
    r := NewRecord(d, after);
  }

  lemma OtherAccounts(d: Door, command: Command, actor: string, env: Env) returns (r: Record)
    requires d.storeUp && !env.logFails && !command.SetDoorPolarity?
    requires !command.AddTag? && !command.RemoveTag? && !command.RenameTag?
    ensures var after := RunCommand(d, command, actor, env).0;
            Silent(d, after) || Accounts(d, after, r)
  {
    var after := RunCommand(d, command, actor, env).0;
    r := NewRecord(d, after);
  }

  /** The record that a command other than a polarity change leaves, unless it is silent. */
  lemma CommandAccounts(d: Door, command: Command, actor: string, env: Env) returns (r: Record)
    requires d.storeUp && !env.logFails && !command.SetDoorPolarity?
    ensures var after := RunCommand(d, command, actor, env).0;
            Silent(d, after) || Accounts(d, after, r)
  {
    match command
    case AddTag(uid, name) => r := AddTagAccounts(d, uid, name, actor, env);
    case RemoveTag(uid) => r := RemoveTagAccounts(d, uid, actor, env);
    case RenameTag(uid, name) => r := RenameTagAccounts(d, uid, name, actor, env);
    case _ => r := OtherAccounts(d, command, actor, env);
  }

  lemma CommandAudited(tags: map<string, string>, d: Door, command: Command, actor: string, env: Env)
    requires Audited(tags, d) && !env.logFails
    ensures Audited(tags, RunCommand(d, command, actor, env).0)
  {
    if command.SetDoorPolarity? {
      DoorPolarityAudited(tags, d, command.door, command.activeLow, actor, env);
    } else {
      var after := RunCommand(d, command, actor, env).0;
      var r := CommandAccounts(d, command, actor, env);
      if !Silent(d, after) {
        RecordKeepsAudit(tags, d, after, r);
      }
    }
  }

  lemma DispatchAudited(tags: map<string, string>, d: Door, e: Event, env: Env)
    requires Audited(tags, d) && !env.logFails
    ensures Audited(tags, Dispatch(d, e, env).0)
  {
    match e
    case NfcUid(uid) => NfcAudited(tags, d, uid, env);
    case WebCommand(Object(command, actor), _) => CommandAudited(tags, d, command, Clip(actor, 64), env);
    case WebCommand(NotAnObject, _) =>
    case UnlockTimerExpired(_) =>
    case _ =>
      var after := Dispatch(d, e, env).0;
      RecordKeepsAudit(tags, d, after, after.log[|d.log|]);
  }

  /** Every insertion of the run into the audit log works. */
  predicate StoreWorks(actions: seq<Action>) {
    forall i :: 0 <= i < |actions| && actions[i].DispatchNext? ==> !actions[i].logFails
  }

  lemma StepAudited(tags: map<string, string>, s: System, a: Action)
    requires Audited(tags, s.door) && Enabled(s, a) && (a.DispatchNext? ==> !a.logFails)
    ensures Audited(tags, Next(s, a).door)
  {
    if a.DispatchNext? {
      DispatchAudited(tags, s.door, s.queue[0], Env(s.now, a.fault, a.logFails));
    }
  }

  lemma {:induction false} RunAudited(tags: map<string, string>, s: System, actions: seq<Action>, t: System)
    requires Audited(tags, s.door) && StoreWorks(actions) && Run(s, actions, t)
    ensures Audited(tags, t.door)
    decreases |actions|
  {
    if actions != [] {
      StepAudited(tags, s, actions[0]);
      RunAudited(tags, Next(s, actions[0]), actions[1..], t);
    }
  }

  /** With a working store, in every reachable state of every interleaving: replaying the log over the
      initial tags gives the tags in force; each record about a UID is justified by the replay of what
      precedes it; and the log holds exactly one granted record for each unlock. */
  lemma LogExplainsEverything(s: System, setup: seq<real>, actions: seq<Action>, t: System)
    requires Init(s, setup) && s.door.storeUp && StoreWorks(actions) && Run(s, actions, t)
    ensures Replay(s.door.config.authorized, t.door.log) == t.door.config.authorized
    ensures forall i :: 0 <= i < |t.door.log| ==>
              Justified(Replay(s.door.config.authorized, t.door.log[..i]), t.door.log[i])
    ensures Grants(t.door.log) == t.door.lock.nextTimer
  {
    RunAudited(s.door.config.authorized, s, actions, t);
  }

  lemma ScanDecision(d: Door, uid: string, env: Env)
    requires d.storeUp && !env.logFails && !d.enroll.armed
    ensures var after, tags := HandleNfc(d, uid, env), d.config.authorized;
            && after.lock == (if uid in tags then Unlocked(d.lock, None, env.now) else d.lock)
            && after.log == d.log + [if uid in tags then AccessRecord(ACCESS_GRANTED, uid, tags[uid], true)
                                     else AccessRecord(ACCESS_DENIED, uid, "Unknown", false)]
  {
  }

  /** Whether a scan opens the door is decided by the log: with the reader not armed, the next scan
      unlocks exactly when the replayed log maps its UID to a name, and that name is recorded. */
  lemma ScanFollowsLog(s: System, setup: seq<real>, actions: seq<Action>, t: System, fault: Option<ConfigFile.Step>)
    requires Init(s, setup) && s.door.storeUp && StoreWorks(actions) && Run(s, actions, t)
    requires t.phase.Waiting? && t.queue != [] && t.queue[0].NfcUid? && !t.door.enroll.armed
    ensures var uid, tags := t.queue[0].uid, Replay(s.door.config.authorized, t.door.log);
            var after := Dispatch(t.door, t.queue[0], Env(t.now, fault, false)).0;
            && (after.lock == if uid in tags then Unlocked(t.door.lock, None, t.now) else t.door.lock)
            && after.log == t.door.log + [if uid in tags then AccessRecord(ACCESS_GRANTED, uid, tags[uid], true)
                                          else AccessRecord(ACCESS_DENIED, uid, "Unknown", false)]
  {
    RunAudited(s.door.config.authorized, s, actions, t);
    ScanDecision(t.door, t.queue[0].uid, Env(t.now, fault, false));
  }
}
