/**
 * The procedures of app-native/src/identity.rs as they run: one file operation after the other,
 * giving up at the first error. The environment's faults are a queue, one entry an operation.
 */
module IdentityStores {
  import opened IdentityTree
  import opened IdentityMigration

  /** Every place on the disk holds a proper tree. */
  ghost predicate Real(d: Disk) {
    && WellFormed(d.identity) && WellFormed(d.config)
    && WellFormed(d.backupIdentity) && WellFormed(d.backupConfig)
    && WellFormed(d.stagedIdentity) && WellFormed(d.stagedConfig)
    && WellFormed(d.sourceIdentity) && WellFormed(d.sourceConfig)
  }

  ghost predicate AllReal(faults: seq<Fault>) {
    forall f :: f in faults && f != Clean ==> Real(f.torn)
  }

  /** A directory is copied to a place that is free. */
  predicate TargetIsFree(d: Disk, op: Op) {
    match op
    case BackupIdentity => d.backupIdentity == ABSENT
    case StageIdentity => d.stagedIdentity == ABSENT
    case RestoreIdentity => d.identity == ABSENT
    case _ => true
  }

  predicate SourcesKept(d: Disk, e: Disk) {
    e.sourceIdentity == d.sourceIdentity && e.sourceConfig == d.sourceConfig
  }

  /** What a completed removal leaves free for the copies after it. */
  predicate Frees(op: Op, d: Disk, e: Disk) {
    match op
    case RemoveBackup => e.backupIdentity == ABSENT
    case RemoveStaging => e.stagedIdentity == ABSENT
    case RemoveIdentity => e.identity == ABSENT
    case RemoveConfig => e.identity == d.identity
    case _ => true
  }

  lemma EffectIsReal(d: Disk, op: Op)
    requires Real(d) && TargetIsFree(d, op)
    ensures Real(Effect(d, op))
  {
    match op
    case BackupIdentity => assert d.backupIdentity + d.identity == d.identity;
    case StageIdentity => assert d.stagedIdentity + d.sourceIdentity == d.sourceIdentity;
    case RestoreIdentity => assert d.identity + d.backupIdentity == d.backupIdentity;
    case _ =>
  }

  lemma EffectFrees(d: Disk, op: Op)
    ensures SourcesKept(d, Effect(d, op)) && Frees(op, d, Effect(d, op))
  {
  }

  lemma RemainingIsWellFormed(t: Tree, left: Tree)
    requires WellFormed(t) && WellFormed(left)
    ensures WellFormed(Remaining(t, left))
  {
  }

  lemma WrittenIsWellFormed(src: Tree, left: Tree)
    requires WellFormed(src) && WellFormed(left)
    ensures WellFormed(Written(src, left)) && WellFormed(ABSENT + Written(src, left))
  {
    assert ABSENT + Written(src, left) == Written(src, left);
  }

  lemma TornIsReal(d: Disk, op: Op, t: Disk)
    requires Real(d) && Real(t) && TargetIsFree(d, op)
    ensures Real(Torn(d, op, t)) && SourcesKept(d, Torn(d, op, t))
  {
    match op
    case RemoveBackup =>
      RemainingIsWellFormed(d.backupIdentity, t.backupIdentity);
      RemainingIsWellFormed(d.backupConfig, t.backupConfig);
    case RemoveStaging =>
      RemainingIsWellFormed(d.stagedIdentity, t.stagedIdentity);
      RemainingIsWellFormed(d.stagedConfig, t.stagedConfig);
    case RemoveIdentity => RemainingIsWellFormed(d.identity, t.identity);
    case RemoveConfig => RemainingIsWellFormed(d.config, t.config);
    case BackupIdentity => WrittenIsWellFormed(d.identity, t.backupIdentity);
    case BackupConfig => WrittenIsWellFormed(d.config, t.backupConfig);
    case StageIdentity => WrittenIsWellFormed(d.sourceIdentity, t.stagedIdentity);
    case StageConfig => WrittenIsWellFormed(d.sourceConfig, t.stagedConfig);
    case RestoreIdentity => WrittenIsWellFormed(d.backupIdentity, t.identity);
    case RestoreConfig => WrittenIsWellFormed(d.backupConfig, t.config);
    case _ =>
  }

  class IdentityStore {
    const setup: Setup
    var disk: Disk
    var faults: seq<Fault>
    var verified: nat

    constructor (setup: Setup, disk: Disk, faults: seq<Fault>)
      requires Real(disk) && AllReal(faults)
      ensures Valid() && this.setup == setup && this.disk == disk && this.faults == faults
    {
      this.setup, this.disk, this.faults, verified := setup, disk, faults, 0;
    }

    ghost predicate Valid()
      reads this
    {
      Real(disk) && AllReal(faults)
    }

    /** A directory copied file by file to a free place. */
    method CopyTree(source: Tree) returns (copy: Tree)
      requires WellFormed(source) && IsDir(source)
      ensures copy == source
    {
      var ok;
      ok, copy := CopyDirRecursive(source, [], ABSENT);
      assert Under(source, []) == source;
      assert ABSENT + source == source;
    }

    /** Step (c): the walk over the identity and the check of the config. */
    method VerifyStaging() returns (ok: bool)
      requires Valid()
      modifies this`verified
      ensures ok <==> Verified(setup, disk)
      ensures ok ==> verified == SourceFiles(disk)
    {
      verified := 0;
      if IsDir(disk.sourceIdentity) {
        var count := VerifyDirMatches(setup.checks, disk.sourceIdentity, disk.stagedIdentity);
        if count.None? {
          return false;
        }
        verified := count.value;
      }
      if IsFile(disk.sourceConfig) {
        if !IsFile(disk.stagedConfig)
           || !FileMatches(setup.checks, setup.configIsJson, disk.sourceConfig[[]].bytes, disk.stagedConfig[[]].bytes) {
          return false;
        }
        verified := verified + 1;
      }
      ok := true;
    }

    /** The operation in full; the directory copies and the verification are the walks above. */
    method Carry(op: Op) returns (fate: Fate)
      requires Valid() && !Skips(disk, op) && TargetIsFree(disk, op)
      modifies this`disk, this`verified
      ensures (disk, fate) == Do(setup, old(disk), op, Clean)
      ensures op != Verify ==> verified == old(verified)
      ensures op == Verify && fate == Done ==> verified == SourceFiles(disk)
    {
      fate := Done;
      if op == Verify {
        var ok := VerifyStaging();
        if !ok {
          fate := Failed;
        }
      } else if op == BackupIdentity {
        assert disk.backupIdentity + disk.identity == disk.identity;
        var copy := CopyTree(disk.identity);
        disk := disk.(backupIdentity := copy);
      } else if op == StageIdentity {
        assert disk.stagedIdentity + disk.sourceIdentity == disk.sourceIdentity;
        var copy := CopyTree(disk.sourceIdentity);
        disk := disk.(stagedIdentity := copy);
      } else if op == RestoreIdentity {
        assert disk.identity + disk.backupIdentity == disk.backupIdentity;
        var copy := CopyTree(disk.backupIdentity);
        disk := disk.(identity := copy);
      } else {
        disk := Effect(disk, op);
      }
    }

    /** One operation under the next fault; `next` and `goal` are what the caller is in the middle of. */
    method Try(op: Op, ghost next: Plan, ghost goal: Ran) returns (fate: Fate)
      requires Valid() && TargetIsFree(disk, op)
      requires Perform(setup, Then(op, next), disk, faults) == goal
      modifies this
      ensures Valid()
      ensures if fate == Done then Perform(setup, next, disk, faults) == goal else goal == Ran(disk, fate, faults)
      ensures SourcesKept(old(disk), disk) && (fate == Done ==> Frees(op, old(disk), disk))
      ensures op != Verify ==> verified == old(verified)
      ensures op == Verify && fate == Done ==> verified == SourceFiles(disk)
    {
      var fault := NextFault(faults);
      faults := LaterFaults(faults);
      EffectIsReal(disk, op);
      EffectFrees(disk, op);
      if Skips(disk, op) {
        fate := Done;
      } else {
        match fault
        case Clean =>
          fate := Carry(op);
        case Fails(t) =>
          TornIsReal(disk, op, t);
          disk, fate := Torn(disk, op, t), Failed;
        case Dies(t) =>
          TornIsReal(disk, op, t);
          disk, fate := Torn(disk, op, t), Died;
      }
    }

    /** The removals of `rollback`. */
    method Clear(ghost goal: Ran) returns (fate: Fate)
      requires Valid() && goal == Perform(setup, RESTORE, disk, faults)
      modifies this
      ensures Valid()
      ensures if fate == Done then Perform(setup, PUT_BACK, disk, faults) == goal else goal == Ran(disk, fate, faults)
      ensures fate == Done ==> disk.identity == ABSENT
    {
      fate := Try(RemoveStaging, RESTORE.next, goal);
      if fate != Done {
        return;
      }
      fate := Try(RemoveIdentity, RESTORE.next.next, goal);
      if fate != Done {
        return;
      }
      assert disk.identity == ABSENT;
      fate := Try(RemoveConfig, PUT_BACK, goal);
      if fate != Done {
        return;
      }
    }

    /** The whole of `rollback` but the journal. */
    method Restore() returns (fate: Fate)
      requires Valid()
      modifies this
      ensures Valid()
      ensures Ran(disk, fate, faults) == Perform(setup, RESTORE, old(disk), old(faults))
    {
      ghost var restored := Perform(setup, RESTORE, disk, faults);
      fate := Clear(restored);
      if fate != Done {
        return;
      }
      fate := Try(RestoreIdentity, PUT_BACK.next, restored);
      if fate != Done {
        return;
      }
      fate := Try(RestoreConfig, End, restored);
      if fate != Done {
        return;
      }
    }

    /** `rollback`. */
    method Rollback() returns (fate: Fate)
      requires Valid()
      modifies this
      ensures Valid()
      ensures Ran(disk, fate, faults) == IdentityMigration.Rollback(setup, old(disk), old(faults))
    {
      fate := Restore();
      if fate != Done {
        return;
      }
      fate := Try(RemoveJournal, End, Perform(setup, FINISH, disk, faults));
    }

    /** `recover_on_start`. */
    method RecoverOnStart() returns (fate: Fate)
      requires Valid()
      modifies this
      ensures Valid()
      ensures Ran(disk, fate, faults) == IdentityMigration.RecoverOnStart(setup, old(disk), old(faults))
    {
      fate := Done;
      if disk.journal {
        fate := Rollback();
      }
    }

    /** Lines 274 to 290. */
    method Snapshot() returns (fate: Fate)
      requires Valid()
      modifies this
      ensures Valid()
      ensures Ran(disk, fate, faults) == Perform(setup, SNAPSHOT, old(disk), old(faults))
      ensures SourcesKept(old(disk), disk)
    {
      ghost var saved := Perform(setup, SNAPSHOT, disk, faults);
      fate := Try(MakeRoot, SNAPSHOT.next, saved);
      if fate != Done {
        return;
      }
      fate := Try(RemoveBackup, SNAPSHOT.next.next, saved);
      if fate != Done {
        return;
      }
      fate := Try(BackupIdentity, SNAPSHOT.next.next.next, saved);
      if fate != Done {
        return;
      }
      fate := Try(BackupConfig, SNAPSHOT.next.next.next.next, saved);
      if fate != Done {
        return;
      }
    }

    /** Lines 291 to 306. */
    method Stage(ghost goal: Ran) returns (fate: Fate)
      requires Valid() && goal == Perform(setup, REPLACE, disk, faults)
      modifies this
      ensures Valid()
      ensures if fate == Done then Perform(setup, CHECK, disk, faults) == goal else goal == Ran(disk, fate, faults)
      ensures SourcesKept(old(disk), disk)
    {
      fate := Try(WriteJournal, STAGE, goal);
      if fate != Done {
        return;
      }
      fate := Try(RemoveStaging, STAGE.next, goal);
      if fate != Done {
        return;
      }
      fate := Try(StageIdentity, STAGE.next.next, goal);
      if fate != Done {
        return;
      }
      fate := Try(StageConfig, STAGE.next.next.next, goal);
      if fate != Done {
        return;
      }
      fate := Try(WriteJournal, CHECK, goal);
      if fate != Done {
        return;
      }
    }

    /** Lines 321 to 332. */
    method Switch(ghost goal: Ran) returns (fate: Fate)
      requires Valid() && goal == Perform(setup, SWITCH, disk, faults)
      modifies this
      ensures Valid() && goal == Ran(disk, fate, faults) && verified == old(verified)
    {
      fate := Try(RemoveIdentity, SWITCH.next, goal);
      if fate != Done {
        return;
      }
      fate := Try(RemoveConfig, SWITCH.next.next, goal);
      if fate != Done {
        return;
      }
      fate := Try(SwitchIdentity, SWITCH.next.next.next, goal);
      if fate != Done {
        return;
      }
      fate := Try(SwitchConfig, SWITCH.next.next.next.next, goal);
      if fate != Done {
        return;
      }
      fate := Try(RemoveStaging, SWITCH.next.next.next.next.next, goal);
      if fate != Done {
        return;
      }
    }

    /** `run_migration`. */
    method RunMigration() returns (fate: Fate)
      requires Valid()
      modifies this
      ensures Valid()
      ensures Ran(disk, fate, faults) == IdentityMigration.RunMigration(setup, old(disk), old(faults))
      ensures fate == Done ==> verified == SourceFiles(old(disk))
    {
      fate := Snapshot();
      if fate != Done {
        return;
      }
      ghost var replaced := Perform(setup, REPLACE, disk, faults);
      fate := Stage(replaced);
      if fate != Done {
        return;
      }
      fate := Try(Verify, CHECK.next, replaced);
      if fate != Done {
        return;
      }
      fate := Try(WriteJournal, SWITCH, replaced);
      if fate != Done {
        return;
      }
      fate := Switch(replaced);
      if fate != Done {
        return;
      }
      fate := Try(RemoveJournal, End, Perform(setup, FINISH, disk, faults));
    }

    /** `migrate`. */
    method Migrate() returns (outcome: Outcome)
      requires Valid()
      modifies this
      ensures Valid()
      ensures (disk, outcome) == IdentityMigration.Migrate(setup, old(disk), old(faults))
    {
      var fate := RecoverOnStart();
      if fate != Done {
        return if fate == Died then Dead else Refused(false);
      }
      if NothingToMigrate(disk) {
        return Migrated(0);
      }
      fate := RunMigration();
      if fate == Done {
        return Migrated(verified);
      }
      if fate == Died {
        return Dead;
      }
      fate := Rollback();
      outcome := if fate == Died then Dead else Refused(fate == Done);
    }
  }
}
