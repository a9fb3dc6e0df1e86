/**
 * The backup-first identity migration of app-native/src/identity.rs, with input/output errors and
 * the death of the process at any point of it.
 *
 * The disk is the destination, its backup, the staging area, the sources and the journal. A removal
 * that is interrupted leaves any part of what was there, and a copy any part of its source with any
 * bytes in its files; a rename is atomic.
 */
module IdentityMigration {
  import opened IdentityTree

  datatype Disk = Disk(
    identity: Tree, config: Tree,
    backupIdentity: Tree, backupConfig: Tree,
    stagedIdentity: Tree, stagedConfig: Tree,
    sourceIdentity: Tree, sourceConfig: Tree,
    journal: bool)

  datatype Op =
    | MakeRoot
    | RemoveBackup
    | BackupIdentity
    | BackupConfig
    | WriteJournal
    | RemoveStaging
    | StageIdentity
    | StageConfig
    | Verify
    | RemoveIdentity
    | RemoveConfig
    | SwitchIdentity
    | SwitchConfig
    | RestoreIdentity
    | RestoreConfig
    | RemoveJournal

  /** What becomes of one operation; `torn` selects what an interrupted one leaves behind. */
  datatype Fault = Clean | Fails(torn: Disk) | Dies(torn: Disk)

  datatype Fate = Done | Failed | Died

  /** The hash, the JSON parser, and whether the server config is a `.json` file. */
  datatype Setup = Setup(checks: Checks, configIsJson: bool)

  /** There is something under the root, which therefore exists. */
  predicate RootInUse(d: Disk) {
    || d.identity != ABSENT || d.config != ABSENT || d.backupIdentity != ABSENT || d.backupConfig != ABSENT
    || d.stagedIdentity != ABSENT || d.stagedConfig != ABSENT || d.journal
  }

  /** The operation has nothing to do. */
  predicate Skips(d: Disk, op: Op) {
    match op
    case MakeRoot => RootInUse(d)
    case RemoveBackup => d.backupIdentity == ABSENT && d.backupConfig == ABSENT
    case BackupIdentity => !IsDir(d.identity)
    case BackupConfig => !IsFile(d.config)
    case RemoveStaging => d.stagedIdentity == ABSENT && d.stagedConfig == ABSENT
    case StageIdentity => !IsDir(d.sourceIdentity)
    case StageConfig => !IsFile(d.sourceConfig)
    case RemoveIdentity => d.identity == ABSENT
    case RemoveConfig => d.config == ABSENT
    case SwitchIdentity => !IsDir(d.stagedIdentity)
    case SwitchConfig => !IsFile(d.stagedConfig)
    case RestoreIdentity => !IsDir(d.backupIdentity)
    case RestoreConfig => !IsFile(d.backupConfig)
    case RemoveJournal => !d.journal
    case _ => false
  }

  /** The operation carried out in full. */
  function Effect(d: Disk, op: Op): Disk {
    if Skips(d, op) then d
    else
      match op
      case RemoveBackup => d.(backupIdentity := ABSENT, backupConfig := ABSENT)
      case BackupIdentity => d.(backupIdentity := d.backupIdentity + d.identity)
      case BackupConfig => d.(backupConfig := d.config)
      case WriteJournal => d.(journal := true)
      case RemoveStaging => d.(stagedIdentity := ABSENT, stagedConfig := ABSENT)
      case StageIdentity => d.(stagedIdentity := d.stagedIdentity + d.sourceIdentity)
      case StageConfig => d.(stagedConfig := d.sourceConfig)
      case RemoveIdentity => d.(identity := ABSENT)
      case RemoveConfig => d.(config := ABSENT)
      case SwitchIdentity => d.(identity := d.stagedIdentity, stagedIdentity := ABSENT)
      case SwitchConfig => d.(config := d.stagedConfig, stagedConfig := ABSENT)
      case RestoreIdentity => d.(identity := d.identity + d.backupIdentity)
      case RestoreConfig => d.(config := d.backupConfig)
      case RemoveJournal => d.(journal := false)
      case _ => d
  }

  /** What a removal has left of `t`. */
  function Remaining(t: Tree, left: Tree): Tree {
    map p | p in t && p in left :: t[p]
  }

  /** What a copy has written of `src`: some of its entries, the files with any contents. */
  function Written(src: Tree, left: Tree): Tree {
    map p | p in src && p in left :: if src[p].File? && left[p].File? then left[p] else src[p]
  }

  /** A single file copied over `dst`, or not yet touched. */
  function WrittenFile(src: Tree, dst: Tree, left: Tree): Tree {
    if IsFile(left) then Written(src, left) else dst
  }

  /** The operation cut short. */
  function Torn(d: Disk, op: Op, t: Disk): Disk {
    match op
    case RemoveBackup =>
      d.(backupIdentity := Remaining(d.backupIdentity, t.backupIdentity),
         backupConfig := Remaining(d.backupConfig, t.backupConfig))
    case BackupIdentity => d.(backupIdentity := d.backupIdentity + Written(d.identity, t.backupIdentity))
    case BackupConfig => d.(backupConfig := WrittenFile(d.config, d.backupConfig, t.backupConfig))
    case WriteJournal => d.(journal := d.journal || t.journal)
    case RemoveStaging =>
      d.(stagedIdentity := Remaining(d.stagedIdentity, t.stagedIdentity),
         stagedConfig := Remaining(d.stagedConfig, t.stagedConfig))
    case StageIdentity => d.(stagedIdentity := d.stagedIdentity + Written(d.sourceIdentity, t.stagedIdentity))
    case StageConfig => d.(stagedConfig := WrittenFile(d.sourceConfig, d.stagedConfig, t.stagedConfig))
    case RemoveIdentity => d.(identity := Remaining(d.identity, t.identity))
    case RemoveConfig => d.(config := Remaining(d.config, t.config))
    case RestoreIdentity => d.(identity := d.identity + Written(d.backupIdentity, t.identity))
    case RestoreConfig => d.(config := WrittenFile(d.backupConfig, d.config, t.config))
    case _ => d
  }

  /** Step (c) of the migration: every source file against its staged copy. */
  ghost predicate Verified(u: Setup, d: Disk) {
    && (IsDir(d.sourceIdentity) ==> Matches(u.checks, d.sourceIdentity, d.stagedIdentity))
    && (IsFile(d.sourceConfig) ==>
          IsFile(d.stagedConfig)
          && FileMatches(u.checks, u.configIsJson, d.sourceConfig[[]].bytes, d.stagedConfig[[]].bytes))
  }

  ghost function Do(u: Setup, d: Disk, op: Op, fault: Fault): (Disk, Fate) {
    if Skips(d, op) then (d, Done)
    else
      match fault
      case Fails(t) => (Torn(d, op, t), Failed)
      case Dies(t) => (Torn(d, op, t), Died)
      case Clean => if op == Verify && !Verified(u, d) then (d, Failed) else (Effect(d, op), Done)
  }

  datatype Plan = End | Then(op: Op, next: Plan)

  /** Lines 274 to 290: the snapshot of the destination. */
  const SNAPSHOT := Then(MakeRoot, Then(RemoveBackup, Then(BackupIdentity, Then(BackupConfig, End))))
  /** Lines 321 to 332: the switch proper. */
  const SWITCH :=
    Then(RemoveIdentity, Then(RemoveConfig, Then(SwitchIdentity, Then(SwitchConfig, Then(RemoveStaging, End)))))
  /** Lines 291 to 332: the first journal, then stage, verify, switch. */
  const REPLACE := Then(WriteJournal, STAGE)
  const STAGE := Then(RemoveStaging, Then(StageIdentity, Then(StageConfig, Then(WriteJournal, CHECK))))
  const CHECK := Then(Verify, Then(WriteJournal, SWITCH))
  const FINISH := Then(RemoveJournal, End)
  const RESTORE := Then(RemoveStaging, Then(RemoveIdentity, Then(RemoveConfig, PUT_BACK)))
  const PUT_BACK := Then(RestoreIdentity, Then(RestoreConfig, End))

  function Operations(plan: Plan): seq<Op> {
    if plan.End? then [] else [plan.op] + Operations(plan.next)
  }

  /** Backup, journal, stage, journal, verify, journal, switch: nothing is switched before all of that. */
  lemma PlansAre()
    ensures Operations(SNAPSHOT) == [MakeRoot, RemoveBackup, BackupIdentity, BackupConfig]
    ensures Operations(REPLACE) == [WriteJournal, RemoveStaging, StageIdentity, StageConfig, WriteJournal, Verify,
                                    WriteJournal, RemoveIdentity, RemoveConfig, SwitchIdentity, SwitchConfig,
                                    RemoveStaging]
    ensures Operations(RESTORE) == [RemoveStaging, RemoveIdentity, RemoveConfig, RestoreIdentity, RestoreConfig]
    ensures Operations(FINISH) == [RemoveJournal]
  {
    var tail := SWITCH.next.next;
    assert Operations(tail.next) == [SwitchConfig, RemoveStaging];
    assert Operations(SWITCH) == [RemoveIdentity, RemoveConfig, SwitchIdentity] + Operations(tail.next);
    assert Operations(CHECK) == [Verify, WriteJournal] + Operations(SWITCH);
    assert Operations(STAGE.next.next) == [StageConfig, WriteJournal] + Operations(CHECK);
    assert Operations(STAGE) == [RemoveStaging, StageIdentity] + Operations(STAGE.next.next);
    assert Operations(PUT_BACK) == [RestoreIdentity, RestoreConfig];
    assert Operations(SNAPSHOT.next.next) == [BackupIdentity, BackupConfig];
  }

  datatype Ran = Ran(disk: Disk, fate: Fate, faults: seq<Fault>)

  /** The first fault left; none left means none. */
  function NextFault(faults: seq<Fault>): Fault {
    if faults == [] then Clean else faults[0]
  }

  function LaterFaults(faults: seq<Fault>): seq<Fault> {
    if faults == [] then [] else faults[1..]
  }

  /** Operations in order until one does not get done. */
  ghost function Perform(u: Setup, plan: Plan, d: Disk, faults: seq<Fault>): Ran {
    match plan
    case End => Ran(d, Done, faults)
    case Then(op, next) =>
      var (e, fate) := Do(u, d, op, NextFault(faults));
      if fate == Done then Perform(u, next, e, LaterFaults(faults)) else Ran(e, fate, LaterFaults(faults))
  }

  ghost function PerformBoth(u: Setup, a: Plan, b: Plan, d: Disk, faults: seq<Fault>): Ran {
    var r := Perform(u, a, d, faults);
    if r.fate == Done then Perform(u, b, r.disk, r.faults) else r
  }

  /** `rollback`. */
  ghost function Rollback(u: Setup, d: Disk, faults: seq<Fault>): Ran {
    PerformBoth(u, RESTORE, FINISH, d, faults)
  }

  /** `recover_on_start`. */
  ghost function RecoverOnStart(u: Setup, d: Disk, faults: seq<Fault>): Ran {
    if d.journal then Rollback(u, d, faults) else Ran(d, Done, faults)
  }

  /** `run_migration`. */
  ghost function RunMigration(u: Setup, d: Disk, faults: seq<Fault>): Ran {
    var s := Perform(u, SNAPSHOT, d, faults);
    if s.fate == Done then PerformBoth(u, REPLACE, FINISH, s.disk, s.faults) else s
  }

  datatype Outcome = Migrated(files: nat) | Refused(rolledBack: bool) | Dead

  predicate NothingToMigrate(d: Disk) {
    !IsDir(d.sourceIdentity) && !IsFile(d.sourceConfig)
  }

  function SourceFiles(d: Disk): nat {
    (if IsDir(d.sourceIdentity) then |Files(d.sourceIdentity)| else 0) + (if IsFile(d.sourceConfig) then 1 else 0)
  }

  /** `migrate`. */
  ghost function Migrate(u: Setup, d: Disk, faults: seq<Fault>): (Disk, Outcome) {
    var r := RecoverOnStart(u, d, faults);
    if r.fate == Died then (r.disk, Dead)
    else if r.fate == Failed then (r.disk, Refused(false))
    else if NothingToMigrate(r.disk) then (r.disk, Migrated(0))
    else
      var m := RunMigration(u, r.disk, r.faults);
      if m.fate == Died then (m.disk, Dead)
      else if m.fate == Done then (m.disk, Migrated(SourceFiles(r.disk)))
      else
        var b := Rollback(u, m.disk, m.faults);
        (b.disk, if b.fate == Died then Dead else Refused(b.fate == Done))
  }
}
