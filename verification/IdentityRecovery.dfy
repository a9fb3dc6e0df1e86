/**
 * What the identity migration guarantees under faults: which runs keep the prior installation, which
 * errors are undone, and on which disks that is every run and every error.
 */
module IdentityRecovery {
  import opened IdentityTree
  import opened IdentityMigration

  datatype Installation = Installation(identity: Tree, config: Tree)

  function Installed(d: Disk): Installation { Installation(d.identity, d.config) }

  function BackedUp(d: Disk): Installation { Installation(d.backupIdentity, d.backupConfig) }

  /** What the sources offer: an identity directory and a config file, each of them only if it is one. */
  function Offered(d: Disk): Installation {
    Installation(if IsDir(d.sourceIdentity) then d.sourceIdentity else ABSENT,
                 if IsFile(d.sourceConfig) then d.sourceConfig else ABSENT)
  }

  /** The state that a recovery would leave: the backup under a journal, the destination itself otherwise. */
  function Prior(d: Disk): Installation {
    if d.journal then BackedUp(d) else Installed(d)
  }

  /** The identity is a directory or absent, and the config a file or absent. */
  predicate WellKinded(p: Installation) {
    (p.identity == ABSENT || IsDir(p.identity)) && (p.config == ABSENT || IsFile(p.config))
  }

  const NONE := Installation(ABSENT, ABSENT)

  /** What a snapshot saves of an installation and a rollback restores of a backup. */
  function Saved(p: Installation): Installation {
    Installation(if IsDir(p.identity) then p.identity else ABSENT, if IsFile(p.config) then p.config else ABSENT)
  }

  /** The prior state is in the backup under a journal. */
  predicate Guarded(d: Disk, p: Installation) {
    d.journal && BackedUp(d) == p
  }

  /** Guarded, or in place, or replaced by the whole of what the sources offer. */
  predicate Safe(d: Disk, p: Installation) {
    Guarded(d, p) || (!d.journal && (Installed(d) == p || Installed(d) == Offered(d)))
  }

  /** The operation leaves the backup alone and never removes the journal. */
  predicate SparesBackup(op: Op) {
    !op.RemoveBackup? && !op.BackupIdentity? && !op.BackupConfig? && !op.RemoveJournal?
  }

  predicate AllSpareBackup(plan: Plan) {
    plan.Then? ==> SparesBackup(plan.op) && AllSpareBackup(plan.next)
  }

  /** What a recovery relies on is as good as before. */
  predicate BackupKept(d: Disk, e: Disk) {
    BackedUp(e) == BackedUp(d) && Offered(e) == Offered(d) && (d.journal ==> e.journal)
  }

  lemma SparedEffect(d: Disk, op: Op)
    requires SparesBackup(op)
    ensures BackupKept(d, Effect(d, op))
  {
  }

  lemma SparedTear(d: Disk, op: Op, t: Disk)
    requires SparesBackup(op)
    ensures BackupKept(d, Torn(d, op, t))
  {
  }

  lemma SparedOp(u: Setup, d: Disk, op: Op, fault: Fault)
    requires SparesBackup(op)
    ensures BackupKept(d, Do(u, d, op, fault).0)
  {
    SparedEffect(d, op);
    if fault != Clean {
      SparedTear(d, op, fault.torn);
    }
  }

  lemma {:induction false} BackupSurvives(u: Setup, plan: Plan, d: Disk, faults: seq<Fault>)
    requires AllSpareBackup(plan)
    ensures BackupKept(d, Perform(u, plan, d, faults).disk)
    decreases plan
  {
    if plan.Then? {
      SparedOp(u, d, plan.op, NextFault(faults));
      BackupSurvives(u, plan.next, Do(u, d, plan.op, NextFault(faults)).0, LaterFaults(faults));
    }
  }

  ghost function Effects(plan: Plan, d: Disk): Disk {
    if plan.End? then d else Effects(plan.next, Effect(d, plan.op))
  }

  /** A plan that gets done has had every one of its effects. */
  lemma {:induction false} DoneMeansEffects(u: Setup, plan: Plan, d: Disk, faults: seq<Fault>)
    requires Perform(u, plan, d, faults).fate == Done
    ensures Perform(u, plan, d, faults).disk == Effects(plan, d)
    decreases plan
  {
    if plan.Then? {
      DoneMeansEffects(u, plan.next, Do(u, d, plan.op, NextFault(faults)).0, LaterFaults(faults));
    }
  }

  lemma Unfold(op: Op, next: Plan, d: Disk)
    ensures Effects(Then(op, next), d) == Effects(next, Effect(d, op))
  {
  }

  lemma Clears(d: Disk)
    ensures Effect(Effect(d, RemoveIdentity), RemoveConfig) == d.(identity := ABSENT, config := ABSENT)
  {
  }

  lemma ClearsStaging(d: Disk)
    ensures Effect(d, RemoveStaging) == d.(stagedIdentity := ABSENT, stagedConfig := ABSENT)
  {
  }

  lemma Restores(d: Disk)
    requires Installed(d) == NONE
    ensures Effect(Effect(d, RestoreIdentity), RestoreConfig)
         == d.(identity := Saved(BackedUp(d)).identity, config := Saved(BackedUp(d)).config)
  {
    assert ABSENT + d.backupIdentity == d.backupIdentity;
    assert Effect(d, RestoreIdentity) == d.(identity := Saved(BackedUp(d)).identity);
  }

  lemma Stages(d: Disk)
    requires d.stagedIdentity == ABSENT && d.stagedConfig == ABSENT
    ensures Effect(Effect(d, StageIdentity), StageConfig)
         == d.(stagedIdentity := Offered(d).identity, stagedConfig := Offered(d).config)
  {
    assert ABSENT + d.sourceIdentity == d.sourceIdentity;
    assert Effect(d, StageIdentity) == d.(stagedIdentity := Offered(d).identity);
  }

  lemma Switches(d: Disk)
    requires Installed(d) == NONE
    requires d.stagedIdentity == Offered(d).identity && d.stagedConfig == Offered(d).config
    ensures Installed(Effect(Effect(d, SwitchIdentity), SwitchConfig)) == Offered(d)
  {
  }

  lemma RestoreEffects(d: Disk)
    ensures Installed(Effects(RESTORE, d)) == Saved(BackedUp(d))
  {
    var a := Effect(d, RemoveStaging);
    var b := Effect(a, RemoveIdentity);
    var c := Effect(b, RemoveConfig);
    ClearsStaging(d);
    Clears(a);
    Restores(c);
    var e := Effect(c, RestoreIdentity);
    Unfold(RestoreConfig, End, e);
    Unfold(RestoreIdentity, PUT_BACK.next, c);
    Unfold(RemoveConfig, PUT_BACK, b);
    Unfold(RemoveIdentity, RESTORE.next.next, a);
    Unfold(RemoveStaging, RESTORE.next, d);
  }

  lemma FinishIs(u: Setup, d: Disk, faults: seq<Fault>)
    ensures var r := Perform(u, FINISH, d, faults);
            if r.fate == Done then r.disk == d.(journal := false) else d.journal && r.disk == d
  {
    assert FINISH.op == RemoveJournal && FINISH.next == End;
  }

  /** A rollback that completes restores the backup exactly; until then the backup stays guarded. */
  lemma RollbackRestores(u: Setup, d: Disk, faults: seq<Fault>)
    ensures var r := Rollback(u, d, faults);
            && BackedUp(r.disk) == BackedUp(d) && Offered(r.disk) == Offered(d)
            && (r.fate == Done ==> !r.disk.journal && Installed(r.disk) == Saved(BackedUp(d)))
            && (r.fate == Done && WellKinded(BackedUp(d)) ==> Installed(r.disk) == BackedUp(d))
            && (r.fate != Done && d.journal ==> r.disk.journal)
  {
    BackupSurvives(u, RESTORE, d, faults);
    var r := Perform(u, RESTORE, d, faults);
    if r.fate == Done {
      DoneMeansEffects(u, RESTORE, d, faults);
      RestoreEffects(d);
      FinishIs(u, r.disk, r.faults);
    }
  }

  lemma SwitchEffects(d: Disk)
    requires d.stagedIdentity == Offered(d).identity && d.stagedConfig == Offered(d).config
    ensures Installed(Effects(SWITCH, d)) == Offered(d)
  {
    var a := Effect(d, RemoveIdentity);
    var b := Effect(a, RemoveConfig);
    Clears(d);
    Switches(b);
    var c := Effect(b, SwitchIdentity);
    var e := Effect(c, SwitchConfig);
    ClearsStaging(e);
    Unfold(RemoveStaging, End, e);
    Unfold(SwitchConfig, SWITCH.next.next.next.next, c);
    Unfold(SwitchIdentity, SWITCH.next.next.next, b);
    Unfold(RemoveConfig, SWITCH.next.next, a);
    Unfold(RemoveIdentity, SWITCH.next, d);
  }

  /** The replacement, when it gets done, installs exactly what the sources offer. */
  lemma ReplaceEffects(d: Disk)
    ensures Installed(Effects(REPLACE, d)) == Offered(d)
  {
    var z := Effect(d, WriteJournal);
    StageEffects(z);
    Unfold(WriteJournal, STAGE, d);
  }

  lemma StageEffects(d: Disk)
    ensures Installed(Effects(STAGE, d)) == Offered(d)
  {
    var a := Effect(d, RemoveStaging);
    var b := Effect(a, StageIdentity);
    var c := Effect(b, StageConfig);
    ClearsStaging(d);
    Stages(a);
    var e := Effect(c, WriteJournal);
    assert e == c.(journal := true) && Effect(e, Verify) == e && Effect(e, WriteJournal) == e;
    SwitchEffects(e);
    Unfold(WriteJournal, SWITCH, e);
    Unfold(Verify, CHECK.next, e);
    Unfold(WriteJournal, CHECK, c);
    Unfold(StageConfig, STAGE.next.next.next, b);
    Unfold(StageIdentity, STAGE.next.next, a);
    Unfold(RemoveStaging, STAGE.next, d);
  }

  // ---- The snapshot ------------------------------------------------------------------------

  /** The operation touches neither the destination nor the journal nor the sources. */
  predicate SparesDestination(op: Op) {
    op.MakeRoot? || op.RemoveBackup? || op.BackupIdentity? || op.BackupConfig?
  }

  predicate AllSpareDestination(plan: Plan) {
    plan.Then? ==> SparesDestination(plan.op) && AllSpareDestination(plan.next)
  }

  /** Only the backup differs. */
  predicate DestinationKept(d: Disk, e: Disk) {
    Installed(e) == Installed(d) && Offered(e) == Offered(d) && e.journal == d.journal
  }

  lemma SnapshotOp(u: Setup, d: Disk, op: Op, fault: Fault)
    requires SparesDestination(op)
    ensures DestinationKept(d, Do(u, d, op, fault).0)
  {
    assert DestinationKept(d, Effect(d, op));
    assert fault != Clean ==> DestinationKept(d, Torn(d, op, fault.torn));
  }

  lemma {:induction false} DestinationSurvives(u: Setup, plan: Plan, d: Disk, faults: seq<Fault>)
    requires AllSpareDestination(plan)
    ensures DestinationKept(d, Perform(u, plan, d, faults).disk)
    decreases plan
  {
    if plan.Then? {
      SnapshotOp(u, d, plan.op, NextFault(faults));
      DestinationSurvives(u, plan.next, Do(u, d, plan.op, NextFault(faults)).0, LaterFaults(faults));
    }
  }

  lemma BacksUp(d: Disk)
    requires d.backupIdentity == ABSENT && d.backupConfig == ABSENT
    ensures Effect(Effect(d, BackupIdentity), BackupConfig)
         == d.(backupIdentity := Saved(Installed(d)).identity, backupConfig := Saved(Installed(d)).config)
  {
    assert ABSENT + d.identity == d.identity;
    assert Effect(d, BackupIdentity) == d.(backupIdentity := Saved(Installed(d)).identity);
  }

  lemma SnapshotEffects(d: Disk)
    ensures BackedUp(Effects(SNAPSHOT, d)) == Saved(Installed(d))
  {
    var a := Effect(d, RemoveBackup);
    assert a == d.(backupIdentity := ABSENT, backupConfig := ABSENT);
    BacksUp(a);
    var b := Effect(a, BackupIdentity);
    Unfold(BackupConfig, End, b);
    Unfold(BackupIdentity, SNAPSHOT.next.next.next, a);
    Unfold(RemoveBackup, SNAPSHOT.next.next, d);
    Unfold(MakeRoot, SNAPSHOT.next, d);
  }

  /** The snapshot leaves the destination alone, and once it is done the backup is the destination. */
  lemma SnapshotSaves(u: Setup, d: Disk, faults: seq<Fault>)
    ensures var r := Perform(u, SNAPSHOT, d, faults);
            && Installed(r.disk) == Installed(d) && Offered(r.disk) == Offered(d) && r.disk.journal == d.journal
            && (r.fate == Done ==> BackedUp(r.disk) == Saved(Installed(d)))
  {
    DestinationSurvives(u, SNAPSHOT, d, faults);
    var r := Perform(u, SNAPSHOT, d, faults);
    if r.fate == Done {
      DoneMeansEffects(u, SNAPSHOT, d, faults);
      SnapshotEffects(d);
    }
  }

  /** Snapshot and restore give back exactly the installations of the expected kinds. */
  lemma SnapshotRoundTrip(u: Setup, d: Disk, faults: seq<Fault>)
    requires Perform(u, SNAPSHOT, d, faults).fate == Done
    requires Rollback(u, Perform(u, SNAPSHOT, d, faults).disk, []).fate == Done
    ensures Installed(Rollback(u, Perform(u, SNAPSHOT, d, faults).disk, []).disk) == Installed(d)
            <==> WellKinded(Installed(d))
  {
    var r := Perform(u, SNAPSHOT, d, faults);
    SnapshotSaves(u, d, faults);
    assert WellKinded(BackedUp(r.disk));
    RollbackRestores(u, r.disk, []);
    assert Saved(Installed(d)) == Installed(d) <==> WellKinded(Installed(d));
  }

  // ---- The replacement ---------------------------------------------------------------------

  /** The first operation of the replacement: a journal that could not be written changes nothing. */
  lemma MarkOrNothing(u: Setup, d: Disk, fault: Fault)
    ensures var r := Do(u, d, WriteJournal, fault);
            if r.1 == Done then r.0 == d.(journal := true)
            else (r.0 == d || r.0 == d.(journal := true))
  {
  }

  lemma UnfoldRun(u: Setup, op: Op, next: Plan, d: Disk, faults: seq<Fault>)
    ensures var (e, fate) := Do(u, d, op, NextFault(faults));
            Perform(u, Then(op, next), d, faults)
            == if fate == Done then Perform(u, next, e, LaterFaults(faults)) else Ran(e, fate, LaterFaults(faults))
  {
  }

  lemma MarkedOrUntouched(u: Setup, d: Disk, faults: seq<Fault>)
    ensures var r := Perform(u, REPLACE, d, faults);
            && BackupKept(d, r.disk)
            && (r.fate == Done ==> r.disk.journal)
            && (r.disk.journal || Installed(r.disk) == Installed(d))
  {
    BackupSurvives(u, REPLACE, d, faults);
    AfterTheMark(u, d, faults);
  }

  lemma AfterTheMark(u: Setup, d: Disk, faults: seq<Fault>)
    ensures var r := Perform(u, REPLACE, d, faults);
            if Do(u, d, WriteJournal, NextFault(faults)).1 == Done then r.disk.journal
            else r.fate != Done && (r.disk.journal || r.disk == d)
  {
    UnfoldRun(u, WriteJournal, STAGE, d, faults);
    MarkOrNothing(u, d, NextFault(faults));
    var marked := Do(u, d, WriteJournal, NextFault(faults));
    if marked.1 == Done {
      BackupSurvives(u, STAGE, marked.0, LaterFaults(faults));
    }
  }

  /**
   * From line 291 on, until the end or until the first error: either the journal is there and the
   * backup is as before, or the destination is untouched.
   */
  lemma ReplaceIsGuarded(u: Setup, d: Disk, faults: seq<Fault>)
    ensures var r := PerformBoth(u, REPLACE, FINISH, d, faults);
            && BackedUp(r.disk) == BackedUp(d) && Offered(r.disk) == Offered(d)
            && (r.fate != Done ==> r.disk.journal || Installed(r.disk) == Installed(d))
            && (r.fate == Done ==> !r.disk.journal && Installed(r.disk) == Offered(d))
  {
    MarkedOrUntouched(u, d, faults);
    var r := Perform(u, REPLACE, d, faults);
    if r.fate == Done {
      DoneMeansEffects(u, REPLACE, d, faults);
      ReplaceEffects(d);
      FinishIs(u, r.disk, r.faults);
    }
  }

  // ---- The migration -----------------------------------------------------------------------

  /** The migration proper runs: the recovery at its head completed and there is something to migrate. */
  ghost predicate Proceeds(u: Setup, d: Disk, faults: seq<Fault>) {
    var r := RecoverOnStart(u, d, faults);
    r.fate == Done && Offered(r.disk) != NONE
  }

  /**
   * It runs and gives up with an error while there is no journal, and either the error is one of the
   * snapshot or the rollback that follows does not complete.
   */
  ghost predicate GivesUpUnguarded(u: Setup, d: Disk, faults: seq<Fault>) {
    var r := RecoverOnStart(u, d, faults);
    && Proceeds(u, d, faults)
    && var m := RunMigration(u, r.disk, r.faults);
       && m.fate == Failed && !m.disk.journal
       && (Perform(u, SNAPSHOT, r.disk, r.faults).fate == Failed || Rollback(u, m.disk, m.faults).fate != Done)
  }

  /** The prior installation is guarded, or in place, or replaced by the sources and that reported. */
  ghost predicate Sound(u: Setup, d: Disk, faults: seq<Fault>) {
    var (e, o) := Migrate(u, d, faults);
    Guarded(e, Prior(d))
    || (!e.journal && (Installed(e) == Prior(d) || (o.Migrated? && Installed(e) == Offered(d))))
  }

  /** A recovery keeps the prior installation safe, and restores it if it completes. */
  lemma RecoveryIsSafe(u: Setup, d: Disk, faults: seq<Fault>, p: Installation)
    requires WellKinded(p) && Safe(d, p)
    ensures var r := RecoverOnStart(u, d, faults);
            && Safe(r.disk, p) && Offered(r.disk) == Offered(d)
            && (r.fate == Done ==> !r.disk.journal && Installed(r.disk) == if d.journal then p else Installed(d))
            && (r.fate != Done ==> Guarded(r.disk, p))
  {
    if d.journal {
      RollbackRestores(u, d, faults);
    }
  }

  lemma RunIsSafe(u: Setup, d: Disk, faults: seq<Fault>)
    requires !d.journal && WellKinded(Installed(d))
    ensures var r := RunMigration(u, d, faults);
            && Offered(r.disk) == Offered(d)
            && (r.disk.journal ==> BackedUp(r.disk) == Installed(d))
            && (!r.disk.journal && r.fate != Done ==> Installed(r.disk) == Installed(d))
            && (r.fate == Done ==> !r.disk.journal && Installed(r.disk) == Offered(d)
                                   && BackedUp(r.disk) == Installed(d))
  {
    SnapshotSaves(u, d, faults);
    var s := Perform(u, SNAPSHOT, d, faults);
    if s.fate == Done {
      ReplaceIsGuarded(u, s.disk, s.faults);
    }
  }

  /** Once the snapshot is done, every error whose rollback completes leaves the prior installation. */
  lemma LateErrorsAreUndone(u: Setup, d: Disk, faults: seq<Fault>)
    requires WellKinded(Prior(d)) && Proceeds(u, d, faults) && Migrate(u, d, faults).1 == Refused(true)
    requires var r := RecoverOnStart(u, d, faults); Perform(u, SNAPSHOT, r.disk, r.faults).fate == Done
    ensures !Migrate(u, d, faults).0.journal && Installed(Migrate(u, d, faults).0) == Prior(d)
  {
    RecoveryIsSafe(u, d, faults, Prior(d));
    var r := RecoverOnStart(u, d, faults);
    var s := Perform(u, SNAPSHOT, r.disk, r.faults);
    SnapshotSaves(u, r.disk, r.faults);
    ReplaceIsGuarded(u, s.disk, s.faults);
    var m := RunMigration(u, r.disk, r.faults);
    RollbackRestores(u, m.disk, m.faults);
  }

  /**
   * Wherever the process dies, and after every error that finds the journal in place or is undone
   * after the snapshot: the prior installation is in place, or in the backup under a journal, or
   * replaced by the whole of what the sources offer. A completed rollback has put it back; a
   * migration reported as done has installed the sources and keeps the prior installation as the
   * backup.
   */
  lemma MigrationIsSafe(u: Setup, d: Disk, faults: seq<Fault>)
    requires WellKinded(Prior(d)) && !GivesUpUnguarded(u, d, faults)
    ensures var (e, o) := Migrate(u, d, faults);
            && Sound(u, d, faults) && Offered(e) == Offered(d)
            && (o == Refused(true) ==> !e.journal && Installed(e) == Prior(d))
            && (o.Migrated? && !Proceeds(u, d, faults) ==> Installed(e) == Prior(d) && Offered(d) == NONE)
            && (o.Migrated? && Proceeds(u, d, faults) ==> Installed(e) == Offered(d) && BackedUp(e) == Prior(d))
  {
    RecoveryIsSafe(u, d, faults, Prior(d));
    var r := RecoverOnStart(u, d, faults);
    if Proceeds(u, d, faults) {
      RunIsSafe(u, r.disk, r.faults);
      var m := RunMigration(u, r.disk, r.faults);
      if m.fate == Failed {
        RollbackRestores(u, m.disk, m.faults);
        if !m.disk.journal {
          LateErrorsAreUndone(u, d, faults);
        }
      }
    }
  }

  /** Starts of the application one after another, each of which may fail or be killed. */
  ghost function Restarts(u: Setup, d: Disk, starts: seq<seq<Fault>>): Disk
    decreases |starts|
  {
    if starts == [] then d else Restarts(u, RecoverOnStart(u, d, starts[0]).disk, starts[1..])
  }

  lemma {:induction false} RestartsAreSafe(u: Setup, d: Disk, starts: seq<seq<Fault>>, p: Installation)
    requires WellKinded(p) && Safe(d, p)
    ensures Safe(Restarts(u, d, starts), p) && Offered(Restarts(u, d, starts)) == Offered(d)
    ensures !d.journal ==> Restarts(u, d, starts) == d
    decreases |starts|
  {
    if starts != [] {
      RecoveryIsSafe(u, d, starts[0], p);
      RestartsAreSafe(u, RecoverOnStart(u, d, starts[0]).disk, starts[1..], p);
    }
  }

  /**
   * After such a migration and any number of starts that failed or were killed themselves, the first
   * start that completes finds exactly the prior installation, or exactly what the sources offer if
   * the migration had come to its end; never a mixture.
   */
  lemma CrashesNeverMix(u: Setup, d: Disk, faults: seq<Fault>, starts: seq<seq<Fault>>, last: seq<Fault>)
    requires WellKinded(Prior(d)) && !GivesUpUnguarded(u, d, faults)
    requires RecoverOnStart(u, Restarts(u, Migrate(u, d, faults).0, starts), last).fate == Done
    ensures var (m, o) := Migrate(u, d, faults);
            var e := RecoverOnStart(u, Restarts(u, m, starts), last).disk;
            && !e.journal
            && (Installed(e) == Prior(d) || (o.Migrated? && Installed(e) == Offered(d)))
            && (m.journal ==> Installed(e) == Prior(d))
            && (!m.journal ==> e == m)
  {
    MigrationIsSafe(u, d, faults);
    var m := Migrate(u, d, faults).0;
    if m.journal {
      GuardedRestarts(u, m, starts, Prior(d));
    }
    RestartsAreSafe(u, m, starts, Prior(d));
    RecoveryIsSafe(u, Restarts(u, m, starts), last, Prior(d));
  }

  /** Starting under a journal, it is the prior installation that comes back, never the sources. */
  lemma {:induction false} GuardedRestarts(u: Setup, d: Disk, starts: seq<seq<Fault>>, p: Installation)
    requires WellKinded(p) && Guarded(d, p)
    ensures var e := Restarts(u, d, starts);
            Guarded(e, p) || (!e.journal && Installed(e) == p)
    decreases |starts|
  {
    if starts != [] {
      var r := RecoverOnStart(u, d, starts[0]);
      RollbackRestores(u, d, starts[0]);
      if r.disk.journal {
        GuardedRestarts(u, r.disk, starts[1..], p);
      } else {
        RestartsAreSafe(u, r.disk, starts[1..], p);
      }
    }
  }

  // ---- Faults at will ----------------------------------------------------------------------

  function Length(plan: Plan): nat {
    if plan.End? then 0 else 1 + Length(plan.next)
  }

  function Cleans(n: nat): seq<Fault> {
    if n == 0 then [] else [Clean] + Cleans(n - 1)
  }

  /** As many operations as the plan has go well, and then come the faults. */
  lemma {:induction false} CleanPrefix(u: Setup, plan: Plan, d: Disk, faults: seq<Fault>)
    requires NeverVerifies(plan)
    ensures Perform(u, plan, d, Cleans(Length(plan)) + faults) == Ran(Effects(plan, d), Done, faults)
    decreases plan
  {
    var all := Cleans(Length(plan)) + faults;
    if plan.Then? {
      assert LaterFaults(all) == Cleans(Length(plan.next)) + faults;
      CleanPrefix(u, plan.next, Effect(d, plan.op), faults);
    } else {
      assert all == faults;
    }
  }

  /** The recovery at the head of the migration goes well, and then come the faults. */
  function Recovering(d: Disk, faults: seq<Fault>): seq<Fault> {
    if d.journal then Cleans(Length(RESTORE)) + (Cleans(Length(FINISH)) + faults) else faults
  }

  ghost function Recovered(d: Disk): Disk {
    if d.journal then Effects(FINISH, Effects(RESTORE, d)) else d
  }

  lemma RecoversFirst(u: Setup, d: Disk, faults: seq<Fault>)
    requires WellKinded(Prior(d))
    ensures var r := Recovered(d);
            && RecoverOnStart(u, d, Recovering(d, faults)) == Ran(r, Done, faults)
            && Migrate(u, d, Recovering(d, faults)) == Migrate(u, r, faults)
            && !r.journal && Installed(r) == Prior(d) && Offered(r) == Offered(d) && BackedUp(r) == BackedUp(d)
  {
    if d.journal {
      CleanPrefix(u, RESTORE, d, Cleans(Length(FINISH)) + faults);
      CleanPrefix(u, FINISH, Effects(RESTORE, d), faults);
    }
    RecoveryIsSafe(u, d, Recovering(d, faults), Prior(d));
    RollbackRestores(u, d, Recovering(d, faults));
  }

  /** Nothing is installed, and no backup is there that a rollback would install. */
  predicate NothingToLose(d: Disk) {
    Prior(d) == NONE && Saved(BackedUp(d)) == NONE
  }

  // ---- Errors of the snapshot --------------------------------------------------------------

  /** Lines 274 to 290 fail, and the rollback that follows reports success. */
  ghost predicate EarlyError(u: Setup, d: Disk, faults: seq<Fault>) {
    var r := RecoverOnStart(u, d, faults);
    Proceeds(u, d, faults) && Perform(u, SNAPSHOT, r.disk, r.faults).fate == Failed
    && Migrate(u, d, faults).1 == Refused(true)
  }

  ghost predicate Undone(u: Setup, d: Disk, faults: seq<Fault>) {
    EarlyError(u, d, faults) ==> Installed(Migrate(u, d, faults).0) == Prior(d)
  }

  /** What such an error leaves is what the backup is at that moment. */
  lemma EarlyOutcome(u: Setup, d: Disk, faults: seq<Fault>)
    requires !d.journal && Offered(d) != NONE
    ensures var s := Perform(u, SNAPSHOT, d, faults);
            && (EarlyError(u, d, faults) ==> Installed(Migrate(u, d, faults).0) == Saved(BackedUp(s.disk)))
            && (s.fate == Failed && s.faults == [] ==> EarlyError(u, d, faults) && !Migrate(u, d, faults).0.journal)
  {
    var s := Perform(u, SNAPSHOT, d, faults);
    RollbackRestores(u, s.disk, s.faults);
    SnapshotSaves(u, d, faults);
    assert RunMigration(u, d, faults) == s || s.fate == Done;
    if s.fate == Failed && s.faults == [] {
      CleanRollback(u, s.disk);
    }
  }

  /** The first copy of the snapshot fails before it has written anything. */
  function NothingCopied(d: Disk): seq<Fault> {
    if IsDir(d.identity) then [Clean, Clean, Fails(GONE)] else [Clean, Clean, Clean, Fails(GONE)]
  }

  const GONE := Disk(ABSENT, ABSENT, ABSENT, ABSENT, ABSENT, ABSENT, ABSENT, ABSENT, false)

  lemma NothingWritten(src: Tree)
    ensures Written(src, ABSENT) == ABSENT && Remaining(src, ABSENT) == ABSENT
            && WrittenFile(src, ABSENT, ABSENT) == ABSENT
  {
  }

  /** The first two operations go well. */
  lemma BackupGoesFirst(u: Setup, d: Disk, faults: seq<Fault>)
    ensures var b := d.(backupIdentity := ABSENT, backupConfig := ABSENT);
            Perform(u, SNAPSHOT, d, [Clean, Clean] + faults) == Perform(u, SNAPSHOT.next.next, b, faults)
  {
    var f := [Clean, Clean] + faults;
    assert LaterFaults(f) == [Clean] + faults && LaterFaults([Clean] + faults) == faults;
    UnfoldRun(u, MakeRoot, SNAPSHOT.next, d, f);
    UnfoldRun(u, RemoveBackup, SNAPSHOT.next.next, d, [Clean] + faults);
  }

  lemma CopyFails(u: Setup, d: Disk)
    requires WellKinded(Installed(d)) && Installed(d) != NONE
    ensures var s := Perform(u, SNAPSHOT, d, NothingCopied(d));
            s.fate == Failed && s.faults == [] && BackedUp(s.disk) == NONE
  {
    var b := d.(backupIdentity := ABSENT, backupConfig := ABSENT);
    if IsDir(d.identity) {
      BackupGoesFirst(u, d, [Fails(GONE)]);
      assert NothingCopied(d) == [Clean, Clean] + [Fails(GONE)];
      NothingWritten(d.identity);
      assert ABSENT + ABSENT == ABSENT;
      UnfoldRun(u, BackupIdentity, SNAPSHOT.next.next.next, b, [Fails(GONE)]);
    } else {
      BackupGoesFirst(u, d, [Clean, Fails(GONE)]);
      assert NothingCopied(d) == [Clean, Clean] + [Clean, Fails(GONE)];
      NothingWritten(d.config);
      UnfoldRun(u, BackupIdentity, SNAPSHOT.next.next.next, b, [Clean, Fails(GONE)]);
      UnfoldRun(u, BackupConfig, End, b, [Fails(GONE)]);
    }
  }

  lemma RemovalFails(u: Setup, d: Disk)
    requires Saved(BackedUp(d)) != NONE
    ensures var s := Perform(u, SNAPSHOT, d, [Clean, Fails(d)]);
            s.fate == Failed && s.faults == [] && BackedUp(s.disk) == BackedUp(d)
  {
    var f := [Clean, Fails(d)];
    assert Remaining(d.backupIdentity, d.backupIdentity) == d.backupIdentity;
    assert Remaining(d.backupConfig, d.backupConfig) == d.backupConfig;
    UnfoldRun(u, MakeRoot, SNAPSHOT.next, d, f);
    UnfoldRun(u, RemoveBackup, SNAPSHOT.next.next, d, f[1..]);
  }

  /** The faults with which the snapshot fails and the rollback installs something else. */
  function BadFaults(d: Disk): seq<Fault> {
    if Installed(d) != NONE then NothingCopied(d) else [Clean, Fails(d)]
  }

  lemma EarlyErrorLoses(u: Setup, d: Disk)
    requires !d.journal && Offered(d) != NONE && WellKinded(Installed(d)) && !NothingToLose(d)
    ensures EarlyError(u, d, BadFaults(d))
    ensures !Migrate(u, d, BadFaults(d)).0.journal && Installed(Migrate(u, d, BadFaults(d)).0) != Installed(d)
  {
    if Installed(d) != NONE {
      CopyFails(u, d);
    } else {
      RemovalFails(u, d);
    }
    EarlyOutcome(u, d, BadFaults(d));
  }

  lemma NothingRemains(t: Tree, left: Tree)
    ensures IsDir(Remaining(t, left)) ==> IsDir(t)
    ensures IsFile(Remaining(t, left)) ==> IsFile(t)
  {
  }

  lemma OpKeepsNothing(u: Setup, d: Disk, op: Op, fault: Fault)
    requires SparesDestination(op) && Installed(d) == NONE && Saved(BackedUp(d)) == NONE
    ensures Saved(BackedUp(Do(u, d, op, fault).0)) == NONE
  {
    if op == RemoveBackup && fault != Clean {
      NothingRemains(d.backupIdentity, fault.torn.backupIdentity);
      NothingRemains(d.backupConfig, fault.torn.backupConfig);
    }
  }

  lemma {:induction false} NothingComesOfNothing(u: Setup, plan: Plan, d: Disk, faults: seq<Fault>)
    requires AllSpareDestination(plan) && Installed(d) == NONE && Saved(BackedUp(d)) == NONE
    ensures Saved(BackedUp(Perform(u, plan, d, faults).disk)) == NONE
    decreases plan
  {
    if plan.Then? {
      var fault := NextFault(faults);
      SnapshotOp(u, d, plan.op, fault);
      OpKeepsNothing(u, d, plan.op, fault);
      NothingComesOfNothing(u, plan.next, Do(u, d, plan.op, fault).0, LaterFaults(faults));
    }
  }

  /**
   * The rollback after an error of lines 274 to 290 installs a backup that is old, incomplete or
   * missing. Every such error is undone exactly when there is nothing installed and no old backup.
   */
  lemma EarlyErrorsUndoneExactly(u: Setup, d: Disk)
    requires Offered(d) != NONE && WellKinded(Prior(d))
    ensures (forall faults :: Undone(u, d, faults)) <==> NothingToLose(d)
  {
    if NothingToLose(d) {
      forall faults
        ensures Undone(u, d, faults)
      {
        EarlyErrorKeepsNothing(u, d, faults);
      }
    } else {
      RecoversFirst(u, d, BadFaults(Recovered(d)));
      EarlyErrorLoses(u, Recovered(d));
      assert !Undone(u, d, Recovering(d, BadFaults(Recovered(d))));
    }
  }

  lemma EarlyErrorKeepsNothing(u: Setup, d: Disk, faults: seq<Fault>)
    requires NothingToLose(d)
    ensures Undone(u, d, faults)
  {
    if EarlyError(u, d, faults) {
      RecoveryIsSafe(u, d, faults, NONE);
      RollbackRestores(u, d, faults);
      var r := RecoverOnStart(u, d, faults);
      NothingComesOfNothing(u, SNAPSHOT, r.disk, r.faults);
      SnapshotSaves(u, r.disk, r.faults);
      var s := Perform(u, SNAPSHOT, r.disk, r.faults);
      RollbackRestores(u, s.disk, s.faults);
    }
  }

  // ---- Errors of the first journal ---------------------------------------------------------

  /** The snapshot goes well, the journal cannot be written, and the process dies in the rollback. */
  const UNWRITTEN := Cleans(Length(SNAPSHOT)) + ([Fails(GONE)] + (Cleans(3) + [Dies(GONE), Dies(GONE)]))

  lemma CleanFirst(n: nat, faults: seq<Fault>)
    requires n > 0
    ensures NextFault(Cleans(n) + faults) == Clean && LaterFaults(Cleans(n) + faults) == Cleans(n - 1) + faults
  {
  }

  predicate CleanThen(faults: seq<Fault>, later: seq<Fault>) {
    NextFault(faults) == Clean && LaterFaults(faults) == later
  }

  /** The removals of a rollback go well. */
  lemma ClearsUnder(u: Setup, d: Disk, f0: seq<Fault>, f1: seq<Fault>, f2: seq<Fault>, f3: seq<Fault>)
    requires CleanThen(f0, f1) && CleanThen(f1, f2) && CleanThen(f2, f3)
    ensures var c := d.(stagedIdentity := ABSENT, stagedConfig := ABSENT, identity := ABSENT, config := ABSENT);
            Perform(u, RESTORE, d, f0) == Perform(u, PUT_BACK, c, f3)
  {
    var a := Effect(d, RemoveStaging);
    var b := Effect(a, RemoveIdentity);
    ClearsStaging(d);
    Clears(a);
    UnfoldRun(u, RemoveStaging, RESTORE.next, d, f0);
    UnfoldRun(u, RemoveIdentity, RESTORE.next.next, a, f1);
    UnfoldRun(u, RemoveConfig, PUT_BACK, b, f2);
  }

  lemma ClearsFirst(u: Setup, d: Disk, faults: seq<Fault>)
    ensures var c := d.(stagedIdentity := ABSENT, stagedConfig := ABSENT, identity := ABSENT, config := ABSENT);
            Perform(u, RESTORE, d, Cleans(3) + faults) == Perform(u, PUT_BACK, c, faults)
  {
    CleanFirst(3, faults);
    CleanFirst(2, faults);
    CleanFirst(1, faults);
    assert Cleans(0) + faults == faults;
    ClearsUnder(u, d, Cleans(3) + faults, Cleans(2) + faults, Cleans(1) + faults, faults);
  }

  lemma DiesRestoring(u: Setup, d: Disk)
    requires Saved(BackedUp(d)) != NONE && !d.journal
    ensures var r := Rollback(u, d, Cleans(3) + [Dies(GONE), Dies(GONE)]);
            && r.fate == Died && !r.disk.journal && Installed(r.disk) == NONE
            && BackedUp(r.disk) == BackedUp(d) && Offered(r.disk) == Offered(d)
  {
    ClearsFirst(u, d, [Dies(GONE), Dies(GONE)]);
    DiesPuttingBack(u, d.(stagedIdentity := ABSENT, stagedConfig := ABSENT, identity := ABSENT, config := ABSENT));
  }

  lemma DiesPuttingBack(u: Setup, d: Disk)
    requires Saved(BackedUp(d)) != NONE && Installed(d) == NONE
    ensures var r := Perform(u, PUT_BACK, d, [Dies(GONE), Dies(GONE)]);
            r.fate == Died && r.disk == d
  {
    NothingWritten(d.backupIdentity);
    NothingWritten(d.backupConfig);
    UnfoldRun(u, RestoreIdentity, PUT_BACK.next, d, [Dies(GONE), Dies(GONE)]);
    UnfoldRun(u, RestoreConfig, End, d, [Dies(GONE)]);
    assert ABSENT + ABSENT == ABSENT;
  }

  /**
   * The journal is documented to protect the next start. Where it is the journal that cannot be
   * written, a process killed in the rollback leaves nothing installed and nothing that a later start
   * would recover, although the backup is complete; and the next migration removes that as well.
   */
  lemma UnwrittenJournalLosesInstall(u: Setup, d: Disk, last: seq<Fault>)
    requires !d.journal && Offered(d) != NONE && WellKinded(Installed(d)) && Installed(d) != NONE
    ensures Perform(u, SNAPSHOT, d, UNWRITTEN).fate == Done
    ensures var (e, o) := Migrate(u, d, UNWRITTEN);
            && o == Dead && !e.journal && Installed(e) == NONE && BackedUp(e) == Installed(d)
            && RecoverOnStart(u, e, last) == Ran(e, Done, last)
            && BackedUp(Migrate(u, e, []).0) == NONE
  {
    var after := [Fails(GONE)] + (Cleans(3) + [Dies(GONE), Dies(GONE)]);
    CleanPrefix(u, SNAPSHOT, d, after);
    SnapshotSaves(u, d, UNWRITTEN);
    var s := Effects(SNAPSHOT, d);
    UnfoldRun(u, WriteJournal, STAGE, s, after);
    assert LaterFaults(after) == Cleans(3) + [Dies(GONE), Dies(GONE)];
    assert RunMigration(u, d, UNWRITTEN) == Ran(s, Failed, LaterFaults(after));
    DiesRestoring(u, s);
    NextMigrationForgets(u, Migrate(u, d, UNWRITTEN).0);
  }

  /** A migration that finds nothing installed keeps no backup of anything. */
  lemma NextMigrationForgets(u: Setup, d: Disk)
    requires !d.journal && Installed(d) == NONE && Offered(d) != NONE
    ensures BackedUp(Migrate(u, d, []).0) == NONE
  {
    CleanRun(u, d);
    SnapshotSaves(u, d, []);
    var s := Perform(u, SNAPSHOT, d, []);
    ReplaceIsGuarded(u, s.disk, s.faults);
    var m := RunMigration(u, d, []);
    RollbackRestores(u, m.disk, m.faults);
  }

  // ---- Every run ---------------------------------------------------------------------------

  predicate AllSkipped(plan: Plan, d: Disk) {
    plan.Then? ==> Skips(d, plan.op) && AllSkipped(plan.next, d)
  }

  lemma {:induction false} SkippedPlan(u: Setup, plan: Plan, d: Disk, faults: seq<Fault>)
    requires AllSkipped(plan, d)
    ensures Perform(u, plan, d, faults).fate == Done && Perform(u, plan, d, faults).disk == d
    decreases plan
  {
    if plan.Then? {
      SkippedPlan(u, plan.next, d, LaterFaults(faults));
    }
  }

  lemma ClearingTouchesStagingOnly(u: Setup, d: Disk, fault: Fault)
    ensures var a := Do(u, d, RemoveStaging, fault).0;
            a == d.(stagedIdentity := a.stagedIdentity, stagedConfig := a.stagedConfig)
  {
  }

  lemma NothingToPutBack(d: Disk)
    requires !d.journal && Installed(d) == NONE && Saved(BackedUp(d)) == NONE
    ensures AllSkipped(RESTORE.next, d)
  {
    assert AllSkipped(PUT_BACK.next, d) && AllSkipped(PUT_BACK, d);
    assert AllSkipped(RESTORE.next.next, d);
  }

  lemma RollbackOfNothing(u: Setup, d: Disk, faults: seq<Fault>)
    requires !d.journal && Installed(d) == NONE && Saved(BackedUp(d)) == NONE
    ensures var r := Rollback(u, d, faults); !r.disk.journal && Installed(r.disk) == NONE
  {
    var a := Do(u, d, RemoveStaging, NextFault(faults)).0;
    ClearingTouchesStagingOnly(u, d, NextFault(faults));
    NothingToPutBack(a);
    UnfoldRun(u, RemoveStaging, RESTORE.next, d, faults);
    SkippedPlan(u, RESTORE.next, a, LaterFaults(faults));
    var r := Perform(u, RESTORE, d, faults);
    FinishIs(u, r.disk, r.faults);
  }

  lemma NothingIsKept(u: Setup, d: Disk, faults: seq<Fault>)
    requires NothingToLose(d)
    ensures Sound(u, d, faults)
  {
    RecoveryIsSafe(u, d, faults, NONE);
    RollbackRestores(u, d, faults);
    var r := RecoverOnStart(u, d, faults);
    if Proceeds(u, d, faults) {
      RunIsSafe(u, r.disk, r.faults);
      var m := RunMigration(u, r.disk, r.faults);
      if m.fate == Failed {
        RollbackRestores(u, m.disk, m.faults);
        if !m.disk.journal {
          BackupOfNothing(u, r.disk, r.faults);
          RollbackOfNothing(u, m.disk, m.faults);
        }
      }
    }
  }

  lemma BackupOfNothing(u: Setup, d: Disk, faults: seq<Fault>)
    requires !d.journal && Installed(d) == NONE && Saved(BackedUp(d)) == NONE
    ensures Saved(BackedUp(RunMigration(u, d, faults).disk)) == NONE
  {
    NothingComesOfNothing(u, SNAPSHOT, d, faults);
    var s := Perform(u, SNAPSHOT, d, faults);
    if s.fate == Done {
      ReplaceIsGuarded(u, s.disk, s.faults);
    }
  }

  /**
   * Every error and every death, at any point, keeps the prior installation exactly on the disks that
   * have nothing to lose.
   */
  lemma SoundExactly(u: Setup, d: Disk)
    requires Offered(d) != NONE && WellKinded(Prior(d))
    ensures (forall faults :: Sound(u, d, faults)) <==> NothingToLose(d)
  {
    if NothingToLose(d) {
      forall faults
        ensures Sound(u, d, faults)
      {
        NothingIsKept(u, d, faults);
      }
    } else {
      var r := Recovered(d);
      RecoversFirst(u, d, BadFaults(r));
      EarlyErrorLoses(u, r);
      assert !Sound(u, d, Recovering(d, BadFaults(r)));
    }
  }

  /** The snapshot gets done. */
  ghost predicate Snapshotted(u: Setup, d: Disk, faults: seq<Fault>) {
    var r := RecoverOnStart(u, d, faults);
    Proceeds(u, d, faults) && Perform(u, SNAPSHOT, r.disk, r.faults).fate == Done
  }

  lemma SnapshottedNothing(u: Setup, d: Disk, faults: seq<Fault>)
    requires Prior(d) == NONE && Snapshotted(u, d, faults)
    ensures Sound(u, d, faults)
  {
    RecoveryIsSafe(u, d, faults, NONE);
    var r := RecoverOnStart(u, d, faults);
    RunIsSafe(u, r.disk, r.faults);
    SnapshotSaves(u, r.disk, r.faults);
    var s := Perform(u, SNAPSHOT, r.disk, r.faults);
    ReplaceIsGuarded(u, s.disk, s.faults);
    var m := RunMigration(u, r.disk, r.faults);
    RollbackRestores(u, m.disk, m.faults);
    if m.fate == Failed && !m.disk.journal {
      RollbackOfNothing(u, m.disk, m.faults);
    }
  }

  /** With the snapshot done it is the unwritten journal alone that loses, and so whatever was installed. */
  lemma SnapshottedSoundExactly(u: Setup, d: Disk)
    requires Offered(d) != NONE && WellKinded(Prior(d))
    ensures (forall faults :: Snapshotted(u, d, faults) ==> Sound(u, d, faults)) <==> Prior(d) == NONE
  {
    if Prior(d) == NONE {
      forall faults | Snapshotted(u, d, faults)
        ensures Sound(u, d, faults)
      {
        SnapshottedNothing(u, d, faults);
      }
    } else {
      RecoversFirst(u, d, UNWRITTEN);
      UnwrittenJournalLosesInstall(u, Recovered(d), []);
      assert Snapshotted(u, d, Recovering(d, UNWRITTEN)) && !Sound(u, d, Recovering(d, UNWRITTEN));
    }
  }

  // ---- Without faults ----------------------------------------------------------------------

  /** Every verification that the plan comes to would pass. */
  ghost predicate Passes(u: Setup, plan: Plan, d: Disk) {
    plan.Then? ==> (plan.op == Verify ==> Verified(u, d)) && Passes(u, plan.next, Effect(d, plan.op))
  }

  lemma {:induction false} CleanFate(u: Setup, plan: Plan, d: Disk)
    ensures Perform(u, plan, d, []).fate == if Passes(u, plan, d) then Done else Failed
    ensures Perform(u, plan, d, []).faults == []
    decreases plan
  {
    if plan.Then? {
      CleanFate(u, plan.next, Effect(d, plan.op));
    }
  }

  /** Every source file that must parse does. */
  ghost predicate SourcesParse(u: Setup, d: Disk) {
    && (IsDir(d.sourceIdentity) ==>
          forall p :: p in Files(d.sourceIdentity) && NamedJson(p) ==> u.checks.parses(d.sourceIdentity[p].bytes))
    && (IsFile(d.sourceConfig) && u.configIsJson ==> u.checks.parses(d.sourceConfig[[]].bytes))
  }

  lemma VerbatimCopyVerifies(u: Setup, d: Disk)
    requires d.stagedIdentity == Offered(d).identity && d.stagedConfig == Offered(d).config
    ensures Verified(u, d) <==> SourcesParse(u, d)
  {
    if IsDir(d.sourceIdentity) {
      forall p | p in d.sourceIdentity
        ensures MatchesAt(u.checks, d.sourceIdentity, d.stagedIdentity, p) <==>
                (p in Files(d.sourceIdentity) && NamedJson(p) ==> u.checks.parses(d.sourceIdentity[p].bytes))
      {
        JsonNames(p);
      }
    }
  }

  /** Unless the hash confuses two files, the verification finds everything that is not as it was offered. */
  lemma VerifiedIsVerbatim(u: Setup, d: Disk)
    requires TellsApart(u.checks, d.sourceIdentity, d.stagedIdentity)
    requires TellsApart(u.checks, d.sourceConfig, d.stagedConfig)
    ensures Verified(u, d) <==>
            && Verbatim(u.checks, Offered(d).identity, d.stagedIdentity)
            && (Offered(d).config != ABSENT ==>
                  && [] in d.stagedConfig && d.stagedConfig[[]] == d.sourceConfig[[]]
                  && (u.configIsJson ==> u.checks.parses(d.sourceConfig[[]].bytes)))
  {
    MatchIsVerbatim(u.checks, d.sourceIdentity, d.stagedIdentity);
  }

  lemma UnfoldPasses(u: Setup, op: Op, next: Plan, d: Disk)
    ensures Passes(u, Then(op, next), d) <==> (op == Verify ==> Verified(u, d)) && Passes(u, next, Effect(d, op))
  {
  }

  /** At the verification the staging area holds the sources verbatim. */
  lemma CheckPasses(u: Setup, d: Disk)
    requires d.stagedIdentity == Offered(d).identity && d.stagedConfig == Offered(d).config
    ensures Passes(u, CHECK, d) <==> SourcesParse(u, d)
  {
    VerbatimCopyVerifies(u, d);
    NeverFails(u, CHECK.next, Effect(d, Verify));
    UnfoldPasses(u, Verify, CHECK.next, d);
  }

  lemma ReplacePasses(u: Setup, d: Disk)
    ensures Passes(u, REPLACE, d) <==> SourcesParse(u, d)
  {
    var z := Effect(d, WriteJournal);
    var a := Effect(z, RemoveStaging);
    ClearsStaging(z);
    Stages(a);
    var b := Effect(a, StageIdentity);
    var c := Effect(b, StageConfig);
    var e := Effect(c, WriteJournal);
    assert e == c.(journal := true);
    SourcesAlike(u, d.(journal := true), e);
    CheckPasses(u, e);
    UnfoldPasses(u, WriteJournal, CHECK, c);
    UnfoldPasses(u, StageConfig, STAGE.next.next.next, b);
    UnfoldPasses(u, StageIdentity, STAGE.next.next, a);
    UnfoldPasses(u, RemoveStaging, STAGE.next, z);
    UnfoldPasses(u, WriteJournal, STAGE, d);
  }

  predicate NeverVerifies(plan: Plan) {
    plan.Then? ==> !plan.op.Verify? && NeverVerifies(plan.next)
  }

  lemma {:induction false} NeverFails(u: Setup, plan: Plan, d: Disk)
    requires NeverVerifies(plan)
    ensures Passes(u, plan, d)
    decreases plan
  {
    if plan.Then? {
      NeverFails(u, plan.next, Effect(d, plan.op));
    }
  }

  /** `run_migration` without faults: it is done exactly when the sources parse. */
  lemma CleanRun(u: Setup, d: Disk)
    ensures RunMigration(u, d, []).fate == if SourcesParse(u, d) then Done else Failed
    ensures RunMigration(u, d, []).faults == []
    ensures Perform(u, SNAPSHOT, d, []).fate == Done
  {
    CleanFate(u, SNAPSHOT, d);
    NeverFails(u, SNAPSHOT, d);
    SnapshotSaves(u, d, []);
    var s := Perform(u, SNAPSHOT, d, []).disk;
    SourcesAlike(u, d, s);
    CleanFate(u, REPLACE, s);
    ReplacePasses(u, s);
    var r := Perform(u, REPLACE, s, []).disk;
    CleanFate(u, FINISH, r);
    NeverFails(u, FINISH, r);
  }

  lemma SourcesAlike(u: Setup, d: Disk, e: Disk)
    requires DestinationKept(d, e)
    ensures SourcesParse(u, d) <==> SourcesParse(u, e)
  {
  }

  lemma CleanRollback(u: Setup, d: Disk)
    ensures Rollback(u, d, []).fate == Done && Rollback(u, d, []).faults == []
  {
    CleanFate(u, RESTORE, d);
    NeverFails(u, RESTORE, d);
    var r := Perform(u, RESTORE, d, []).disk;
    CleanFate(u, FINISH, r);
    NeverFails(u, FINISH, r);
  }

  /** The files that the sources offer. */
  function OfferedFiles(d: Disk): nat {
    |set p | p in Offered(d).identity && Offered(d).identity[p].File?|
    + (if Offered(d).config == ABSENT then 0 else 1)
  }

  /**
   * Without faults: whatever the sources offer, both or either of them, is installed whole and its
   * files are counted if all that must parse do; if something does not, the answer is an error and the
   * prior installation is in place; and it stays if the sources offer nothing.
   */
  lemma CleanMigration(u: Setup, d: Disk)
    requires WellKinded(Prior(d))
    ensures var (e, o) := Migrate(u, d, []);
            && !e.journal
            && (Offered(d) == NONE ==> o == Migrated(0) && Installed(e) == Prior(d))
            && (Offered(d) != NONE && SourcesParse(u, d) ==>
                  o == Migrated(OfferedFiles(d)) && Installed(e) == Offered(d) && BackedUp(e) == Prior(d))
            && (Offered(d) != NONE && !SourcesParse(u, d) ==> o == Refused(true) && Installed(e) == Prior(d))
  {
    if d.journal {
      CleanRollback(u, d);
    }
    RecoveryIsSafe(u, d, [], Prior(d));
    var r := RecoverOnStart(u, d, []).disk;
    assert Offered(r) == NONE <==> Offered(d) == NONE;
    if Offered(r) != NONE {
      CleanRun(u, r);
      RunIsSafe(u, r, []);
      var m := RunMigration(u, r, []).disk;
      if !SourcesParse(u, r) {
        CleanRollback(u, m);
        LateErrorsAreUndone(u, r, []);
      }
    }
  }
}
