/** config.json: the settings the service changes at run time, and the save that must survive a
    failure or a crash at any of its steps. */
module ConfigFile {
  import opened Basics

  /** A `doors` entry; `activeLow` is absent when the file does not spell the default out. */
  datatype DoorEntry = DoorEntry(name: string, activeLow: Option<bool>)

  /** `legacyActiveLow` is the polarity of the single sensor built when `doors` is empty. */
  datatype Config = Config(authorized: map<string, string>, unlockDuration: real, activeLowRelay: bool,
                           doors: seq<DoorEntry>, legacyActiveLow: Option<bool>)

  function Polarity(activeLow: Option<bool>): bool {
    if activeLow.Some? then activeLow.value else true
  }

  /** The doors the service builds sensors for. */
  function SensorEntries(c: Config): seq<DoorEntry> {
    if c.doors == [] then [DoorEntry("door", c.legacyActiveLow)] else c.doors
  }

  /** Two configurations mean the same: they differ at most in spelling a default polarity out. */
  predicate SameSettings(a: Config, b: Config) {
    && a.(doors := []) == b.(doors := [])
    && |a.doors| == |b.doors|
    && forall i :: 0 <= i < |a.doors| ==>
         a.doors[i].name == b.doors[i].name && Polarity(a.doors[i].activeLow) == Polarity(b.doors[i].activeLow)
  }

  /** What a file holds: a whole configuration, or a prefix of one that does not parse. */
  datatype Content = Whole(config: Config) | Torn

  /** `synced` says that the content would outlive a crash. */
  datatype File = File(content: Content, synced: bool)

  datatype Disk = Disk(main: File, tmp: Option<File>)

  datatype Step = STAT | OPEN_TMP | WRITE_TMP | FSYNC | CHMOD | CHOWN | REPLACE

  const STEPS := [STAT, OPEN_TMP, WRITE_TMP, FSYNC, CHMOD, CHOWN, REPLACE]

  function Perform(d: Disk, step: Step, c: Config): Disk {
    match step
    case OPEN_TMP => d.(tmp := Some(File(Torn, false)))
    case WRITE_TMP => d.(tmp := Some(File(Whole(c), false)))
    case FSYNC => if d.tmp.Some? then d.(tmp := Some(d.tmp.value.(synced := true))) else d
    case REPLACE => if d.tmp.Some? then Disk(d.tmp.value, None) else d
    case _ => d
  }

  /** The disk after the first `n` steps of saving `c`. */
  function AfterSteps(d: Disk, c: Config, n: nat): Disk
    requires n <= |STEPS|
  {
    if n == 0 then d else Perform(AfterSteps(d, c, n - 1), STEPS[n - 1], c)
  }

  /** The disk after a whole save, or after one that fails at `fault`: the effects of the steps
      before it remain. */
  function Saved(d: Disk, c: Config, fault: Option<Step>): Disk {
    AfterSteps(d, c, if fault.Some? then Position(fault.value) else |STEPS|)
  }

  function Position(step: Step): (n: nat)
    ensures n < |STEPS| && STEPS[n] == step
  {
    match step
    case STAT => 0
    case OPEN_TMP => 1
    case WRITE_TMP => 2
    case FSYNC => 3
    case CHMOD => 4
    case CHOWN => 5
    case REPLACE => 6
  }

  /** What a restart after a crash reads: unsynced content is lost. */
  function Reload(d: Disk): Content {
    if d.main.synced then d.main.content else Torn
  }

  predicate Holds(d: Disk, c: Config) {
    d.main == File(Whole(c), true)
  }

  class ConfigFile {
    var main: File
    var tmp: Option<File>

    function State(): Disk
      reads this
    {
      Disk(main, tmp)
    }

    constructor (c: Config)
      ensures State() == Disk(File(Whole(c), true), None)
    {
      main, tmp := File(Whole(c), true), None;
    }

    /** Writes `c` beside the file and swaps it in; `fault` is the step that raises, if any. */
    method Save(c: Config, fault: Option<Step>) returns (ok: bool)
      modifies this
      ensures State() == Saved(old(State()), c, fault)
      ensures ok <==> fault.None?
    {
      UnfoldSteps(State(), c);
      if fault == Some(STAT) { return false; }
      if fault == Some(OPEN_TMP) { return false; }
      tmp := Some(File(Torn, false));
      if fault == Some(WRITE_TMP) { return false; }
      tmp := Some(File(Whole(c), false));
      if fault == Some(FSYNC) { return false; }
      tmp := Some(tmp.value.(synced := true));
      if fault == Some(CHMOD) { return false; }
      if fault == Some(CHOWN) { return false; }
      if fault == Some(REPLACE) { return false; }
      main, tmp := tmp.value, None;
      return true;
    }
  }

  lemma UnfoldSteps(d: Disk, c: Config)
    ensures AfterSteps(d, c, 1) == d
    ensures AfterSteps(d, c, 2) == d.(tmp := Some(File(Torn, false)))
    ensures AfterSteps(d, c, 3) == d.(tmp := Some(File(Whole(c), false)))
    ensures forall n :: 4 <= n <= 6 ==> AfterSteps(d, c, n) == d.(tmp := Some(File(Whole(c), true)))
    ensures AfterSteps(d, c, 7) == Disk(File(Whole(c), true), None)
  {
    assert AfterSteps(d, c, 1) == Perform(AfterSteps(d, c, 0), STEPS[0], c);
    assert AfterSteps(d, c, 2) == Perform(AfterSteps(d, c, 1), STEPS[1], c);
    assert AfterSteps(d, c, 3) == Perform(AfterSteps(d, c, 2), STEPS[2], c);
    assert AfterSteps(d, c, 4) == Perform(AfterSteps(d, c, 3), STEPS[3], c);
    assert AfterSteps(d, c, 5) == Perform(AfterSteps(d, c, 4), STEPS[4], c);
    assert AfterSteps(d, c, 6) == Perform(AfterSteps(d, c, 5), STEPS[5], c);
    assert AfterSteps(d, c, 7) == Perform(AfterSteps(d, c, 6), STEPS[6], c);
  }

  /** A save is all or nothing: the file holds the new configuration exactly when no step failed, and
      is untouched otherwise. */
  lemma SaveIsAtomic(d: Disk, c: Config, fault: Option<Step>)
    ensures Saved(d, c, fault).main == if fault.None? then File(Whole(c), true) else d.main
  {
    UnfoldSteps(d, c);
  }

  /** A crash between any two steps of a save loses nothing: the restart reads the old
      configuration until the last step has run, and the new one from then on. */
  lemma CrashKeepsOldOrNew(d: Disk, c: Config, n: nat)
    requires d.main.synced && n <= |STEPS|
    ensures Reload(AfterSteps(d, c, n)) == if n < |STEPS| then d.main.content else Whole(c)
  {
    UnfoldSteps(d, c);
  }
}
