/**
  Two endings of a change that its caller may not expect, each at one input: an installation that
  reports a failure although it is committed, and a refused removal that leaves its backup behind.
 */
module ChangeExamples {
  import opened Wrappers
  import opened InstalledRegistry
  import opened TransactionDisk
  import opened DurableSteps
  import opened LifecycleManager

  const LAMP := Module("lamp", "1", "lamp", [])
  const NOTHING := Disk(None, Registry(map[], map[]), map[])
  const INSTALL := Replace("source", "repository", LAMP, Archive(map[]))

  const HOST := Host(true, true)
  /** A configuration entry appears while the removal makes its backup. */
  const BUSY := Host(true, false)

  const OWNED := Owned("source", "repository", LAMP, map[], 1)
  const INSTALLED := Disk(None, Registry(map["lamp" := Entry(OWNED, None)], map[]), map[Target("lamp") := map[]])

  lemma CanInstall()
    ensures Startable(NOTHING, "lamp", INSTALL) && Replaces(NOTHING.registry, "lamp", NewOwned(2, INSTALL))
    ensures Feasible(NOTHING, "lamp", 2, INSTALL, HOST)
    ensures CommitSteps(NOTHING, "lamp", INSTALL) == 7 && TotalSteps(NOTHING, "lamp", INSTALL, true) == 9
  {
    assert INSTALL.payload.Files().Keys == {};
    assert Closed(NOTHING.registry) && Chained(NOTHING.registry) && Matching(NOTHING);
  }

  lemma CanRemove()
    ensures Startable(INSTALLED, "lamp", Remove) && BackupDir(2) !in INSTALLED.trees
    ensures BacksUp(INSTALLED, "lamp", Remove, BUSY, None) && !Feasible(INSTALLED, "lamp", 2, Remove, BUSY)
  {
    assert Chained(INSTALLED.registry) && Closed(INSTALLED.registry) && Matching(INSTALLED);
  }

  /** Interrupted between the registry replacement and the end of the clean-up, the installation
      raises, its own recovery finishes it, and the disk is the after disk. */
  method RaisedYetCommitted(budget: nat) returns (r: Outcome, after: Disk, recovery: RecoveryState)
    requires 7 <= budget < 9
    ensures r.Raised? && after == AfterDisk(NOTHING, "lamp", 2, INSTALL) && recovery == FinishedTransaction
    ensures "lamp" in after.registry.installed && "lamp" !in NOTHING.registry.installed
  {
    CanInstall();
    var manager := new Manager(NOTHING, true);
    r := manager.ChangeDomain("lamp", 2, INSTALL, HOST, Some(budget), false, None);
    after, recovery := manager.disk, manager.recovery;
  }

  /** A removal that is refused at the swap, without any interruption, leaves the before disk and a
      backup directory that no record names. */
  method RefusedRemovalLeavesBackup() returns (r: Outcome, after: Disk, recovery: RecoveryState)
    ensures r.Raised? && after.journal.None? && after.registry == INSTALLED.registry
            && recovery == RolledBackTransaction
    ensures Orphaned(after, 2) && !Orphaned(INSTALLED, 2)
  {
    CanRemove();
    var manager := new Manager(INSTALLED, true);
    r := manager.ChangeDomain("lamp", 2, Remove, BUSY, None, false, None);
    after, recovery := manager.disk, manager.recovery;
    OrphanRemainsIff(INSTALLED, after, r, "lamp", 2, Remove, BUSY, None, true);
  }
}
