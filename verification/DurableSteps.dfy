/**
  How many durable actions each part of a change or of a recovery takes. A budget that affords them
  all is not interrupted there; one that does not raises at the first action it cannot pay.
 */
module DurableSteps {
  import opened Wrappers
  import opened InstalledRegistry
  import opened Limits
  import opened TransactionDisk

  /** The durable actions that still succeed; `None` is never interrupted. */
  type Budget = Option<nat>

  predicate Affords(budget: Budget, steps: nat) {
    budget.Some? ==> steps <= budget.value
  }

  /** Make a directory, then begin and complete each entry. */
  function FillSteps(files: Tree): nat { 1 + 2 * |files.Keys| }

  /** Make a directory and begin its first entry over the limit. */
  function OverfullSteps(): nat { 1 + 2 * MAX_FILES + 1 }

  /** One action for a whole tree, or one for each entry and one for the directory. */
  function RemovalSteps(files: Tree, whole: bool): nat {
    if whole then 1 else 1 + |files.Keys|
  }

  // ----- A change -----

  function StagingSteps(change: Change): nat {
    if change.Replace? then FillSteps(change.payload.Files()) else 0
  }

  function BackupSteps(d: Disk, domain: string): nat {
    if domain in d.registry.installed then FillSteps(d.registry.installed[domain].owned.files) else 0
  }

  /** Up to the journal that plans the new registry. */
  function PrepareSteps(d: Disk, domain: string, change: Change): nat {
    1 + StagingSteps(change) + BackupSteps(d, domain) + 1
  }

  /** The renames and their two journals. */
  function SwapSteps(d: Disk, domain: string, change: Change): nat {
    (if domain in d.registry.installed then 1 else 0) + 1 + (if change.Replace? then 1 else 0) + 1
  }

  /** Up to and including the replacement of the registry. */
  function CommitSteps(d: Disk, domain: string, change: Change): nat {
    PrepareSteps(d, domain, change) + SwapSteps(d, domain, change) + 1
  }

  /** Behind the commit: the last journal, the old tree, the journal's end. */
  function CleanupSteps(d: Disk, domain: string, whole: bool): nat {
    1 + (if domain in d.registry.installed then RemovalSteps(d.registry.installed[domain].owned.files, whole)
    else 0) + 1
  }

  function TotalSteps(d: Disk, domain: string, change: Change, whole: bool): nat {
    CommitSteps(d, domain, change) + CleanupSteps(d, domain, whole)
  }

  // ----- A recovery -----

  function ConcludeSteps(d: Disk, t: Transaction, whole: bool): nat {
    (if Stage(t.id) in d.trees then RemovalSteps(d.trees[Stage(t.id)], whole) else 0) + 1
  }

  function DoomedSteps(d: Disk, t: Transaction, whole: bool): nat {
    var doomed := Doomed(d, t);
    if doomed.Some? && doomed.value.0 in d.trees then RemovalSteps(d.trees[doomed.value.0], whole) else 0
  }

  /** Putting the old tree back takes a rename. */
  function RestoreSteps(d: Disk, t: Transaction, whole: bool): nat {
    DoomedSteps(d, t, whole) + (if Hold(t.id) in d.trees then 1 else 0)
  }

  function RecoverySteps(d: Disk, t: Transaction, whole: bool): nat {
    (if IsCommitted(d, t) then DoomedSteps(d, t, whole) else RestoreSteps(d, t, whole)) + ConcludeSteps(d, t, whole)
  }
}
