/**
  The manager's journaled change engine, one durable action at a time. A `budget` says how many
  durable actions still succeed; when it runs out the next one raises `Interrupted`, which stands
  for a power loss, a killed process or an I/O error alike. A budget of `None` never runs out.
 */
module LifecycleManager {
  import opened Wrappers
  import opened InstalledRegistry
  import opened Limits
  import opened TransactionDisk
  import opened DurableSteps

  datatype Error =
    | Interrupted
    | OwnershipConflict
    | BackupConflict
    | PathConflict
    | StorageFailure
    | NativeDependency
    | NativeEntriesRemain
    | RecoveryRequired
    | Rejected

  datatype Outcome = Ok | Raised(error: Error) {
    predicate IsFailure() { Raised? }

    function PropagateFailure(): Outcome
      requires Raised?
    {
      this
    }
  }

  /** The request that a public operation makes; `compatible` is the adapter's and version check. */
  datatype Request =
    | Install(source: string, repository: string, mod: Module, tree: Tree)
    | Rollback(domain: string)
    | Uninstall(domain: string, confirmed: bool, entriesClear: bool)

  /** Which interruptions, if any, a request meets in its opening recovery, in the change and in the
      recovery behind it, and what the adapter answers. */
  datatype Circumstances = Circumstances(id: nat, host: Host, compatible: set<Module>,
                                         opening: Budget, budget: Budget, died: bool, retry: Budget)

  datatype RecoveryState = Clean | RolledBackTransaction | FinishedTransaction | Required

  /** What the native adapter answers while a change runs. */
  datatype Host = Host(nativeDependenciesOk: bool, entriesClearAtSwap: bool)

  // ----- Contracts shared by several methods -----

  /** One attempt at recovering the open transaction `t`. */
  ghost predicate Recovers(d: Disk, t: Transaction, r: Outcome, d': Disk, whole: bool) {
    && (r.Ok? ==> d' == Settled(d, t))
    && (r.Raised? ==>
          && InFlight(d', t, whole)
          && d'.registry == d.registry
          && Settled(d', t) == Settled(d, t))
    && (r != Raised(Interrupted) ==> (r.Ok? <==> Recoverable(d, t)))
    && (r.Raised? ==> StageFits(d', t) == StageFits(d, t))
  }

  /** A transaction that is still open and can only settle as the before or the after disk. */
  ghost predicate Pending(start: Disk, d: Disk, domain: string, id: nat, change: Change, whole: bool)
    requires change.Remove? ==> domain in start.registry.installed
  {
    && d.journal.Some?
    && d.journal.value.id == id
    && d.journal.value.domain == domain
    && d.journal.value.before == start.registry
    && InFlight(d, d.journal.value, whole)
    && BeforeOrAfter(start, Settled(d, d.journal.value), domain, id, change)
  }

  /** Every disk state that any run of the manager can reach. */
  ghost predicate Reachable(d: Disk, whole: bool) {
    if d.journal.None? then Consistent(d)
    else InFlight(d, d.journal.value, whole) && Consistent(Settled(d, d.journal.value))
  }

  /** The quiescent disk that the open transaction, if there is one, settles as. */
  function Ending(d: Disk): Disk {
    if d.journal.None? then d else Settled(d, d.journal.value)
  }

  /** A recovery that did not complete. */
  predicate StillOpen(d: Disk, d': Disk, whole: bool) {
    && d.journal.Some? && d'.journal == d.journal
    && InFlight(d', d.journal.value, whole) && StageFits(d', d.journal.value) == StageFits(d, d.journal.value)
  }

  /** A recovery with this budget completes, or there is nothing to recover. */
  predicate Opens(d: Disk, budget: Budget, whole: bool) {
    d.journal.Some? ==>
      Recoverable(d, d.journal.value) && Affords(budget, RecoverySteps(d, d.journal.value, whole))
  }

  lemma EitherDiskConsistent(start: Disk, d: Disk, domain: string, id: nat, change: Change)
    requires Consistent(start) && Admitted(start, domain, change)
    requires BeforeOrAfter(start, d, domain, id, change)
    ensures Consistent(d)
  {
    if SameBut(start, d, id) {
      SameButConsistent(start, d, id);
    } else {
      AfterDiskConsistent(start, domain, id, change);
    }
  }

  /** What the change engine relies on: the checks made before it was entered. */
  ghost predicate Startable(d: Disk, domain: string, change: Change) {
    && Consistent(d)
    && (change.Remove? ==> domain in d.registry.installed)
    && (domain !in d.registry.installed ==> Target(domain) !in d.trees)
  }

  /** Only the stage and the new backup differ from the start, and the journal is open. */
  ghost predicate Preparing(start: Disk, d: Disk, domain: string, id: nat, t: Transaction) {
    && d.journal == Some(t)
    && t.id == id && t.domain == domain
    && t.before == start.registry == d.registry
    && SameButPrepared(start, d, id)
  }

  /** Only the stage and a new backup may differ. */
  ghost predicate SameButPrepared(start: Disk, d: Disk, id: nat) {
    forall p | p != Stage(id) && (p == BackupDir(id) ==> p in start.trees) :: Get(d.trees, p) == Get(start.trees, p)
  }

  /** What the preparations rest on does not depend on the journal. */
  lemma JournalIsNeutral(start: Disk, begun: Disk, domain: string, id: nat, change: Change, host: Host, budget: Budget)
    requires begun == start.(journal := begun.journal)
    ensures StagedTrees(begun, domain, id, change) == StagedTrees(start, domain, id, change)
    ensures StagePasses(begun, change, host) <==> StagePasses(start, change, host)
    ensures BackupSteps(begun, domain) == BackupSteps(start, domain)
    ensures BacksUp(begun, domain, change, host, budget) <==> BacksUp(start, domain, change, host, budget)
    ensures forall d :: SameButPrepared(begun, d, id) <==> SameButPrepared(start, d, id)
  {
  }

  /** Only the four places of the transaction may differ, an earlier backup of its id excepted. */
  ghost predicate Around(start: Disk, d: Disk, domain: string, id: nat) {
    forall p | p != Stage(id) && p != Hold(id) && p != Target(domain) && (p == BackupDir(id) ==> p in start.trees) ::
      Get(d.trees, p) == Get(start.trees, p)
  }

  /** An uncommitted transaction settles as the disk it started from. */
  lemma UncommittedSettlesBefore(start: Disk, d: Disk, domain: string, id: nat, change: Change, t: Transaction,
                                 whole: bool)
    requires Startable(start, domain, change) && Around(start, d, domain, id)
    requires t.id == id && t.domain == domain && t.before == start.registry
    requires InFlight(d, t, whole) && d.registry == start.registry
    ensures Pending(start, d, domain, id, change, whole)
    ensures !IsCommitted(d, t)
  {
    var settled := Settled(d, t);
    SettledLookups(start, d, domain, id, change, t, whole);
    MapsAgree(settled.trees, start.trees, BackupDir(id));
    if BackupDir(id) in start.trees {
      MapsEqual(settled.trees, start.trees);
    }
  }

  lemma SettledLookups(start: Disk, d: Disk, domain: string, id: nat, change: Change, t: Transaction, whole: bool)
    requires Startable(start, domain, change) && Around(start, d, domain, id)
    requires t.id == id && t.domain == domain && t.before == start.registry
    requires InFlight(d, t, whole) && d.registry == start.registry
    ensures forall p | p == BackupDir(id) ==> p in start.trees :: Get(Settled(d, t).trees, p) == Get(start.trees, p)
  {
    assert Get(start.trees, Stage(id)) == Get(start.trees, Hold(id)) == None;
  }

  lemma PreparingIsPending(start: Disk, d: Disk, domain: string, id: nat, change: Change, t: Transaction, whole: bool)
    requires Startable(start, domain, change) && Preparing(start, d, domain, id, t)
    requires t.after == t.before || RecordedTreesHashable(t)
    ensures Pending(start, d, domain, id, change, whole)
    ensures d.registry == t.before && !IsCommitted(d, t)
  {
    assert Get(d.trees, Hold(id)) == Get(start.trees, Hold(id)) == None;
    assert Get(d.trees, Target(domain)) == Get(start.trees, Target(domain));
    UncommittedSettlesBefore(start, d, domain, id, change, t, whole);
  }

  lemma MapsAgree(a: map<Place, Tree>, b: map<Place, Tree>, except: Place)
    requires forall p | p != except :: Get(a, p) == Get(b, p)
    ensures a - {except} == b - {except}
  {
    forall p | p != except ensures p in a <==> p in b {
      assert Get(a, p) == Get(b, p);
    }
    forall p | p in a - {except} ensures a[p] == b[p] {
      assert Get(a, p) == Get(b, p);
    }
  }

  lemma MapsEqual(a: map<Place, Tree>, b: map<Place, Tree>)
    requires forall p :: Get(a, p) == Get(b, p)
    ensures a == b
  {
    forall p ensures p in a <==> p in b {
      assert Get(a, p) == Get(b, p);
    }
    forall p | p in a ensures a[p] == b[p] {
      assert Get(a, p) == Get(b, p);
    }
  }

  function StagedTrees(d: Disk, domain: string, id: nat, change: Change): map<Place, Tree> {
    if change.Replace?
    then WithBackup(d.(trees := d.trees[Stage(id) := change.payload.Files()]), domain, id)
    else WithBackup(d, domain, id)
  }

  /** An archive that `hash_tree` refuses: extraction limits count members, not implied directories. */
  predicate OverfullArchive(change: Change) {
    change.Replace? && change.payload.Archive? && !Hashable(change.payload.Files())
  }

  /** The stage of an archive that exceeds the limit has itself come to exceed it. */
  predicate Jams(change: Change, budget: Budget) {
    OverfullArchive(change) && Affords(budget, 1 + OverfullSteps())
  }

  /** Uninterrupted, the new tree is staged and accepted. */
  predicate StagePasses(d: Disk, change: Change, host: Host) {
    change.Replace? ==>
      && host.nativeDependenciesOk && Hashable(change.payload.Files())
      && (change.payload.Saved? ==> Verified(d, BackupDir(change.payload.backup), change.payload.files))
  }

  /** What decides, uninterrupted, whether a started change succeeds. */
  predicate Feasible(d: Disk, domain: string, id: nat, change: Change, host: Host) {
    && StagePasses(d, change, host)
    && (change.Remove? ==> host.entriesClearAtSwap)
    && (domain in d.registry.installed ==> BackupDir(id) !in d.trees)
  }

  /** The change reaches its commit point: the registry is replaced. */
  predicate Commits(d: Disk, domain: string, id: nat, change: Change, host: Host, budget: Budget) {
    Feasible(d, domain, id, change, host) && Affords(budget, CommitSteps(d, domain, change))
  }

  /** The change reaches its end. */
  predicate Completes(d: Disk, domain: string, id: nat, change: Change, host: Host, budget: Budget, whole: bool) {
    Feasible(d, domain, id, change, host) && Affords(budget, TotalSteps(d, domain, change, whole))
  }

  /** The change makes the directory of its backup. */
  predicate BacksUp(d: Disk, domain: string, change: Change, host: Host, budget: Budget) {
    && domain in d.registry.installed && StagePasses(d, change, host)
    && Affords(budget, 1 + StagingSteps(change) + 1)
  }

  /** How a started change ends, whatever interrupts it: it succeeds if and only if it reaches its
      end; the disk settles as the after disk if and only if it reaches the commit point; otherwise
      as the before disk, with the new backup directory if and only if the change made it. */
  ghost predicate Changed(start: Disk, d: Disk, r: Outcome, domain: string, id: nat, change: Change, host: Host,
                          budget: Budget, whole: bool)
    requires change.Remove? ==> domain in start.registry.installed
  {
    && (r.Ok? <==> Completes(start, domain, id, change, host, budget, whole))
    && (r.Ok? ==> d.journal.None?)
    && (if Commits(start, domain, id, change, host, budget) then
          Ending(d) == AfterDisk(start, domain, id, change) && d.registry == Ending(d).registry != start.registry
        else
          && SameBut(start, Ending(d), id) && d.registry == start.registry
          && (BackupDir(id) in Ending(d).trees <==>
                BackupDir(id) in start.trees || BacksUp(start, domain, change, host, budget)))
    && (d.journal.Some? ==> Pending(start, d, domain, id, change, whole))
  }

  /** An uncommitted transaction ends as the before disk and keeps what there is of its backup. */
  lemma UncommittedEnding(start: Disk, d: Disk, domain: string, id: nat, change: Change, whole: bool)
    requires Startable(start, domain, change)
             && (change.Replace? ==> Replaces(start.registry, domain, NewOwned(id, change)))
    requires Pending(start, d, domain, id, change, whole) && d.registry == start.registry
    ensures SameBut(start, Ending(d), id)
    ensures BackupDir(id) in Ending(d).trees <==> BackupDir(id) in d.trees
  {
    var after := PlannedRegistry(start.registry, domain, id, change);
    assert Get(after.installed, domain) != Get(start.registry.installed, domain);
  }

  lemma Uncommitted(start: Disk, d: Disk, r: Outcome, domain: string, id: nat, change: Change, host: Host,
                    budget: Budget,
                    whole: bool)
    requires Startable(start, domain, change)
             && (change.Replace? ==> Replaces(start.registry, domain, NewOwned(id, change)))
    requires r.Raised? && !Commits(start, domain, id, change, host, budget) && d.registry == start.registry
    requires d == start || Pending(start, d, domain, id, change, whole)
    requires BackupDir(id) in d.trees <==> BackupDir(id) in start.trees || BacksUp(start, domain, change, host, budget)
    ensures Changed(start, d, r, domain, id, change, host, budget, whole)
  {
    if d != start { UncommittedEnding(start, d, domain, id, change, whole); }
  }

  lemma CommittedChange(start: Disk, d: Disk, r: Outcome, domain: string, id: nat, change: Change, host: Host,
                        budget: Budget,
                        whole: bool)
    requires change.Remove? ==> domain in start.registry.installed
    requires Commits(start, domain, id, change, host, budget)
    requires Ending(d) == AfterDisk(start, domain, id, change) && d.registry == Ending(d).registry != start.registry
    requires (r.Ok? <==> Completes(start, domain, id, change, host, budget, whole)) && (r.Ok? ==> d.journal.None?)
    requires d.journal.Some? ==> Pending(start, d, domain, id, change, whole)
    ensures Changed(start, d, r, domain, id, change, host, budget, whole)
  {
  }

  /** A recovery, completed or not, does not change how the change ended. */
  lemma StillChanged(start: Disk, d: Disk, d': Disk, r': Outcome, domain: string, id: nat, change: Change, host: Host,
                     budget: Budget, whole: bool)
    requires change.Remove? ==> domain in start.registry.installed
    requires exists r: Outcome :: r.Raised? && Changed(start, d, r, domain, id, change, host, budget, whole)
    requires r'.Raised? && Ending(d') == Ending(d) && d'.registry == d.registry
    requires d'.journal.None? || StillOpen(d, d', whole)
    ensures Changed(start, d', r', domain, id, change, host, budget, whole)
  {
  }

  lemma ChangedEither(start: Disk, d: Disk, r: Outcome, domain: string, id: nat, change: Change, host: Host,
                      budget: Budget,
                      whole: bool)
    requires change.Remove? ==> domain in start.registry.installed
    requires Changed(start, d, r, domain, id, change, host, budget, whole)
    ensures BeforeOrAfter(start, Ending(d), domain, id, change)
  {
  }

  /** How a request ends: a recovery that cannot complete keeps what it can settle as, a check that
      fails leaves the recovered disk, and what passes is `Changed`. */
  ghost predicate Served(before: Disk, d: Disk, r: Outcome, domain: string, change: Change, passes: bool,
                         c: Circumstances,
                         whole: bool)
    requires change.Remove? ==> domain in Ending(before).registry.installed
  {
    var start := Ending(before);
    if !Opens(before, c.opening, whole) then
      r.Raised? && d.journal.Some? && Ending(d) == start && d.registry == before.registry
    else if !passes then
      r.Raised? && d == start
    else
      Changed(start, d, r, domain, c.id, change, c.host, c.budget, whole)
  }

  /** No backup record names the directory. */
  predicate Orphaned(d: Disk, id: nat) {
    && BackupDir(id) in d.trees
    && (forall m | m in d.registry.installed ::
          d.registry.installed[m].previous.Some? ==> d.registry.installed[m].previous.value.id != id)
    && (forall m | m in d.registry.removed :: d.registry.removed[m].id != id)
  }

  /** A change that raised is committed all the same if and only if it was interrupted behind the
      registry replacement; one that raised without an interruption leaves the before disk. */
  lemma RaisedYetCommittedIff(start: Disk, d: Disk, r: Outcome, domain: string, id: nat, change: Change, host: Host,
                              budget: Budget, whole: bool)
    requires change.Remove? ==> domain in start.registry.installed
    requires Changed(start, d, r, domain, id, change, host, budget, whole)
    ensures r.Raised? && d.registry != start.registry <==>
              && Feasible(start, domain, id, change, host)
              && budget.Some?
              && CommitSteps(start, domain, change) <= budget.value < TotalSteps(start, domain, change, whole)
    ensures r.Raised? && budget.None? ==> SameBut(start, Ending(d), id)
  {
  }

  /** A change whose identifier is new leaves an orphan backup directory if and only if it made the
      directory and did not commit. */
  lemma OrphanRemainsIff(start: Disk, d: Disk, r: Outcome, domain: string, id: nat, change: Change, host: Host,
                         budget: Budget, whole: bool)
    requires Startable(start, domain, change) && BackupDir(id) !in start.trees
    requires Changed(start, d, r, domain, id, change, host, budget, whole)
    ensures Orphaned(Ending(d), id) <==>
              && BacksUp(start, domain, change, host, budget)
              && !Commits(start, domain, id, change, host, budget)
  {
    if Commits(start, domain, id, change, host, budget) {
      var after := PlannedRegistry(start.registry, domain, id, change);
      if domain in start.registry.installed {
        assert change.Replace? ==> after.installed[domain].previous == BackupOf(start.registry, domain, id);
        assert change.Remove? ==> after.removed[domain].id == id;
      }
    } else {
      assert forall m | m in start.registry.installed && start.registry.installed[m].previous.Some? ::
          BackedUp(start, start.registry.installed[m].previous.value);
      assert forall m | m in start.registry.removed :: BackedUp(start, start.registry.removed[m]);
    }
  }

  /** The component directory is absent and unowned, or owned by `owner` (if one is named) and unmodified. */
  predicate TargetOwned(d: Disk, domain: string, owner: Option<(string, string)>) {
    if domain in d.registry.installed then
      && Verified(d, Target(domain), d.registry.installed[domain].owned.files)
      && (owner.Some? ==>
           owner.value == (d.registry.installed[domain].owned.source, d.registry.installed[domain].owned.repository))
    else Target(domain) !in d.trees
  }

  /** One dependency has exactly one provider, which is not being replaced, compatible and unmodified. */
  predicate ProviderPasses(d: Disk, want: Identity, replacing: string, compatible: set<Module>) {
    && |Providers(d.registry, want)| == 1 && replacing !in Providers(d.registry, want)
    && forall e | e in Providers(d.registry, want) ::
         && d.registry.installed[e].owned.mod in compatible
         && Verified(d, Target(e), d.registry.installed[e].owned.files)
  }

  predicate DependenciesPass(d: Disk, mod: Module, replacing: string, compatible: set<Module>) {
    && (forall want | want in mod.dependencies :: ProviderPasses(d, want, replacing, compatible))
    && !DependentConflict(d.registry, mod, replacing)
  }

  /** Everything `install` asks before it starts the change. */
  predicate InstallPasses(d: Disk, source: string, repository: string, mod: Module, compatible: set<Module>) {
    && mod in compatible
    && TargetOwned(d, mod.domain, Some((source, repository)))
    && (mod.domain in d.registry.installed ==>
          var current := d.registry.installed[mod.domain].owned.mod;
          current.id == mod.id && current.version != mod.version)
    && DependenciesPass(d, mod, mod.domain, compatible)
  }

  /** Everything `rollback` asks before it starts the change. */
  predicate RollbackPasses(d: Disk, domain: string, record: Backup, compatible: set<Module>) {
    && TargetOwned(d, domain, None)
    && record.entry.mod in compatible
    && DependenciesPass(d, record.entry.mod, domain, compatible)
    && BackedUp(d, record)
  }

  function RollbackChange(record: Backup): Change {
    Replace(record.entry.source, record.entry.repository, record.entry.mod, Saved(record.id, record.entry.files))
  }

  /** Everything `remove` asks before it starts the change. */
  predicate RemovalPasses(d: Disk, domain: string, confirmed: bool, entriesClear: bool) {
    && confirmed && domain in d.registry.installed && TargetOwned(d, domain, None)
    && entriesClear && !RemovalConflict(d.registry, domain)
  }

  /** The old tree, if any, has moved to the hold. */
  function HeldTrees(d: Disk, domain: string, id: nat, change: Change): map<Place, Tree> {
    var staged := StagedTrees(d, domain, id, change);
    if domain in d.registry.installed
    then (staged - {Target(domain)})[Hold(id) := d.registry.installed[domain].owned.files]
    else staged
  }

  /** The stage, if any, has moved to the target. */
  function SwappedTrees(d: Disk, domain: string, id: nat, change: Change): map<Place, Tree> {
    var held := HeldTrees(d, domain, id, change);
    if change.Replace? then (held - {Stage(id)})[Target(domain) := change.payload.Files()] else held
  }

  /** A planned transaction in any phase, its journal written. */
  ghost predicate Planned(start: Disk, d: Disk, domain: string, change: Change, t: Transaction)
    requires change.Remove? ==> domain in start.registry.installed
  {
    && d.journal == Some(t)
    && t.domain == domain
    && t.before == start.registry
    && t.after == PlannedRegistry(start.registry, domain, t.id, change)
    && (BackupDir(t.id) in start.trees ==> domain !in start.registry.installed)
    && (change.Replace? ==> Hashable(change.payload.Files()))
    && (change.Replace? ==> Replaces(start.registry, domain, NewOwned(t.id, change)))
  }

  lemma StagedBackup(start: Disk, domain: string, id: nat, change: Change, host: Host, budget: Budget)
    requires StagePasses(start, change, host) && Affords(budget, PrepareSteps(start, domain, change))
    ensures BackupDir(id) in StagedTrees(start, domain, id, change).Keys - {Stage(id)}
            <==> BackupDir(id) in start.trees || BacksUp(start, domain, change, host, budget)
    ensures BackupDir(id) in SwappedTrees(start, domain, id, change) <==>
              BackupDir(id) in StagedTrees(start, domain, id, change)
  {
  }

  lemma PlannedRecords(start: Disk, d: Disk, domain: string, change: Change, t: Transaction)
    requires Startable(start, domain, change) && Planned(start, d, domain, change, t)
    ensures RecordedTreesHashable(t) && t.NewEntry() != t.OldEntry()
    ensures t.OldEntry() == Get(start.registry.installed, domain)
    ensures t.NewEntry() == if change.Remove? then None
                            else Some(Entry(NewOwned(t.id, change), BackupOf(start.registry, domain, t.id)))
    ensures t.OldEntry().Some? ==> Verified(start, Target(domain), t.OldEntry().value.owned.files)
    ensures start.registry == t.before && t.before != t.after
  {
    assert t.before.installed != t.after.installed by {
      assert Get(t.before.installed, domain) != Get(t.after.installed, domain);
    }
  }

  lemma HeldLookup(start: Disk, domain: string, id: nat, change: Change, p: Place)
    requires Stage(id) !in start.trees && Hold(id) !in start.trees
    requires domain !in start.registry.installed ==> Target(domain) !in start.trees
    requires BackupDir(id) in start.trees ==> domain !in start.registry.installed
    ensures p != Stage(id) && p != Hold(id) && p != Target(domain) && (p == BackupDir(id) ==> p in start.trees) ==>
              Get(HeldTrees(start, domain, id, change), p) == Get(start.trees, p)
    ensures p == Target(domain) ==> p !in HeldTrees(start, domain, id, change)
    ensures p == Hold(id) ==>
              (Get(HeldTrees(start, domain, id, change), p)
               == if domain in start.registry.installed then Some(start.registry.installed[domain].owned.files)
               else None)
    ensures p == Stage(id) && change.Remove? ==> p !in HeldTrees(start, domain, id, change)
  {
  }

  lemma HeldKeepsBackup(start: Disk, domain: string, id: nat, change: Change)
    ensures Get(HeldTrees(start, domain, id, change), BackupDir(id)) ==
              Get(StagedTrees(start, domain, id, change), BackupDir(id))
  {
  }

  /** A swap that raised: still pending and uncommitted, its backup as it was. */
  ghost predicate Undone(start: Disk, d: Disk, d': Disk, domain: string, change: Change, t: Transaction, whole: bool)
    requires change.Remove? ==> domain in start.registry.installed
  {
    && Pending(start, d', domain, t.id, change, whole) && d'.registry == start.registry
    && StageFits(d', d'.journal.value) && Get(d'.trees, BackupDir(t.id)) == Get(d.trees, BackupDir(t.id))
  }

  lemma HeldAround(start: Disk, held: Disk, domain: string, change: Change, t: Transaction)
    requires Startable(start, domain, change) && Planned(start, held, domain, change, t)
    requires held == Disk(Some(t), start.registry, HeldTrees(start, domain, t.id, change))
    ensures Around(start, held, domain, t.id)
    ensures HoldsEntry(held, Hold(t.id), t.OldEntry())
    ensures Target(domain) !in held.trees
    ensures change.Remove? ==> Stage(t.id) !in held.trees
  {
    forall p { HeldLookup(start, domain, t.id, change, p); }
  }

  lemma HeldPositions(start: Disk, d: Disk, domain: string, change: Change, t: Transaction, whole: bool)
    requires Startable(start, domain, change) && Planned(start, d, domain, change, t)
    requires d == Disk(Some(t), start.registry, HeldTrees(start, domain, t.id, change))
    ensures Pending(start, d, domain, t.id, change, whole) && StageFits(d, t)
  {
    HeldAround(start, d, domain, change, t);
    PlannedRecords(start, d, domain, change, t);
    UncommittedSettlesBefore(start, d, domain, t.id, change, t, whole);
  }

  lemma SwappedLookup(start: Disk, domain: string, id: nat, change: Change)
    requires Stage(id) !in start.trees && Hold(id) !in start.trees
    requires domain !in start.registry.installed ==> Target(domain) !in start.trees
    requires BackupDir(id) in start.trees ==> domain !in start.registry.installed
    ensures var trees := SwappedTrees(start, domain, id, change);
            && Get(trees, Target(domain)) == (if change.Replace? then Some(change.payload.Files()) else None)
            && Get(trees, Hold(id)) ==
               (if domain in start.registry.installed then Some(start.registry.installed[domain].owned.files) else None)
            && Stage(id) !in trees
  {
    HeldLookup(start, domain, id, change, Target(domain));
    HeldLookup(start, domain, id, change, Hold(id));
    HeldLookup(start, domain, id, change, Stage(id));
  }

  lemma SwappedAround(start: Disk, d: Disk, domain: string, id: nat, change: Change)
    requires Stage(id) !in start.trees && Hold(id) !in start.trees
    requires domain !in start.registry.installed ==> Target(domain) !in start.trees
    requires BackupDir(id) in start.trees ==> domain !in start.registry.installed
    requires d.trees == SwappedTrees(start, domain, id, change)
    ensures Around(start, d, domain, id)
  {
    forall p { HeldLookup(start, domain, id, change, p); }
  }

  lemma SwappedPositions(start: Disk, d: Disk, domain: string, change: Change, t: Transaction, whole: bool)
    requires Startable(start, domain, change) && Planned(start, d, domain, change, t)
    requires d == Disk(Some(t), start.registry, SwappedTrees(start, domain, t.id, change))
    ensures Pending(start, d, domain, t.id, change, whole) && StageFits(d, t)
  {
    PlannedRecords(start, d, domain, change, t);
    SwappedAround(start, d, domain, t.id, change);
    SwappedLookup(start, domain, t.id, change);
    UncommittedSettlesBefore(start, d, domain, t.id, change, t, whole);
  }

  lemma CommittedInFlight(start: Disk, d: Disk, domain: string, change: Change, t: Transaction, whole: bool)
    requires Startable(start, domain, change) && Planned(start, d, domain, change, t)
    requires d == Disk(Some(t), t.after, SwappedTrees(start, domain, t.id, change))
    ensures InFlight(d, t, whole) && IsCommitted(d, t) && Recoverable(d, t)
  {
    PlannedRecords(start, d, domain, change, t);
    SwappedLookup(start, domain, t.id, change);
  }

  /** Once the registry is replaced, only the after disk is left to settle as. */
  lemma CommittedSettlesAfter(start: Disk, d: Disk, domain: string, change: Change, t: Transaction, whole: bool)
    requires Startable(start, domain, change) && Planned(start, d, domain, change, t)
    requires d == Disk(Some(t), t.after, SwappedTrees(start, domain, t.id, change))
    ensures InFlight(d, t, whole) && IsCommitted(d, t) && Recoverable(d, t)
    ensures Settled(d, t) == AfterDisk(start, domain, t.id, change)
  {
    CommittedInFlight(start, d, domain, change, t, whole);
    PlannedRecords(start, d, domain, change, t);
    forall p ensures Get(Settled(d, t).trees, p) == Get(AfterDisk(start, domain, t.id, change).trees, p) {
      AfterLookup(start, domain, t.id, change, p);
    }
    MapsEqual(Settled(d, t).trees, AfterDisk(start, domain, t.id, change).trees);
  }

  lemma AfterLookup(start: Disk, domain: string, id: nat, change: Change, p: Place)
    requires change.Remove? ==> domain in start.registry.installed
    requires Stage(id) !in start.trees && Hold(id) !in start.trees
    requires domain !in start.registry.installed ==> Target(domain) !in start.trees
    requires BackupDir(id) in start.trees ==> domain !in start.registry.installed
    ensures Get(SwappedTrees(start, domain, id, change) - {Stage(id), Hold(id)}, p)
            == Get(AfterDisk(start, domain, id, change).trees, p)
  {
  }

  lemma StagedPositions(start: Disk, d: Disk, domain: string, change: Change, t: Transaction, whole: bool)
    requires Startable(start, domain, change) && Planned(start, d, domain, change, t)
    requires d == Disk(Some(t), start.registry, StagedTrees(start, domain, t.id, change))
    ensures Pending(start, d, domain, t.id, change, whole) && StageFits(d, t)
  {
    PreparingIsPending(start, d, domain, t.id, change, t, whole);
  }

  /** However an admitted change ended, the disk is again one that a run can reach, and the
      dependency graph is layered if the installed module sits at its home. */
  lemma Afterwards(start: Disk, d: Disk, domain: string, id: nat, change: Change, whole: bool, homes: Homes)
    requires Consistent(start) && Admitted(start, domain, change)
    requires d.journal.None? ==> BeforeOrAfter(start, d, domain, id, change)
    requires d.journal.Some? ==> Pending(start, d, domain, id, change, whole)
    ensures Reachable(d, whole)
    ensures Layered(start.registry, homes)
            && (change.Replace? ==> Get(homes, (change.source, change.mod.id)) == Some(domain)) ==>
              Layered(d.registry, homes)
  {
    EitherDiskConsistent(start, if d.journal.None? then d else Settled(d, d.journal.value), domain, id, change);
    if Layered(start.registry, homes) && d.registry != start.registry
       && (change.Replace? ==> Get(homes, (change.source, change.mod.id)) == Some(domain)) {
      if change.Replace? {
        InstallKeepsLayered(start.registry, domain, NewOwned(id, change), id, homes);
      } else {
        RemovalKeepsLayered(start.registry, domain, id, homes);
      }
    }
  }

  /** Two disks that differ at one place only. */
  predicate DiffersAt(d: Disk, d': Disk, p: Place) {
    && d' == d.(trees := d'.trees)
    && d'.trees - {p} == d.trees - {p}
  }

  lemma DifferenceIsLocal(d: Disk, d': Disk, p: Place)
    requires DiffersAt(d, d', p)
    ensures forall q | q != p :: Get(d'.trees, q) == Get(d.trees, q)
    ensures forall q: Place :: d'.trees - {p, q} == d.trees - {p, q}
  {
    forall q | q != p ensures Get(d'.trees, q) == Get(d.trees, q) {
      assert Get(d'.trees - {p}, q) == Get(d.trees - {p}, q);
    }
    forall q: Place ensures d'.trees - {p, q} == d.trees - {p, q} {
      assert d'.trees - {p, q} == (d'.trees - {p}) - {q};
      assert d.trees - {p, q} == (d.trees - {p}) - {q};
    }
  }

  lemma PreparedPlaces(begun: Disk, staged: Disk, d: Disk, id: nat)
    requires DiffersAt(begun, staged, Stage(id)) && DiffersAt(staged, d, BackupDir(id))
    requires BackupDir(id) in staged.trees ==> d == staged
    ensures Get(d.trees, Stage(id)) == Get(staged.trees, Stage(id))
    ensures Get(staged.trees, BackupDir(id)) == Get(begun.trees, BackupDir(id))
    ensures forall p | p != Stage(id) && (p == BackupDir(id) ==> p in begun.trees) ::
              Get(d.trees, p) == Get(begun.trees, p)
  {
    DifferenceIsLocal(begun, staged, Stage(id));
    DifferenceIsLocal(staged, d, BackupDir(id));
  }

  lemma StageMayChange(d: Disk, d': Disk, t: Transaction, whole: bool)
    requires InFlight(d, t, whole) && DiffersAt(d, d', Stage(t.id))
    ensures InFlight(d', t, whole) && Settled(d', t) == Settled(d, t)
    ensures StageFits(d', t) ==> (Recoverable(d', t) <==> (Doomed(d, t).Some? ==>
              HoldsEntry(d, Doomed(d, t).value.0, Doomed(d, t).value.1)))
  {
    DifferenceIsLocal(d, d', Stage(t.id));
    assert Get(d'.trees, Target(t.domain)) == Get(d.trees, Target(t.domain));
    assert Get(d'.trees, Hold(t.id)) == Get(d.trees, Hold(t.id));
    assert d'.trees - {Stage(t.id), Hold(t.id)} == d.trees - {Stage(t.id), Hold(t.id)};
  }

  lemma HoldMayShrink(d: Disk, d': Disk, t: Transaction, whole: bool)
    requires InFlight(d, t, whole) && IsCommitted(d, t) && DiffersAt(d, d', Hold(t.id))
    requires Hold(t.id) in d'.trees ==>
               t.OldEntry().Some? && Part(d'.trees[Hold(t.id)], t.OldEntry().value.owned.files, whole)
    ensures InFlight(d', t, whole) && Settled(d', t) == Settled(d, t)
    ensures StageFits(d', t) == StageFits(d, t)
  {
    DifferenceIsLocal(d, d', Hold(t.id));
    assert Get(d'.trees, Target(t.domain)) == Get(d.trees, Target(t.domain));
    assert Get(d'.trees, Stage(t.id)) == Get(d.trees, Stage(t.id));
    assert d'.trees - {Hold(t.id), Stage(t.id)} == d.trees - {Hold(t.id), Stage(t.id)};
    assert {Hold(t.id), Stage(t.id)} == {Stage(t.id), Hold(t.id)};
  }

  lemma SameStage(d: Disk, d': Disk, t: Transaction, whole: bool)
    requires Get(d'.trees, Stage(t.id)) == Get(d.trees, Stage(t.id))
    ensures ConcludeSteps(d', t, whole) == ConcludeSteps(d, t, whole) && StageFits(d', t) == StageFits(d, t)
  {
  }

  lemma TargetMayShrink(d: Disk, d': Disk, t: Transaction, whole: bool)
    requires InFlight(d, t, whole) && !IsCommitted(d, t) && DiffersAt(d, d', Target(t.domain))
    requires Doomed(d, t).Some?
    requires Target(t.domain) in d'.trees ==> Part(d'.trees[Target(t.domain)], t.NewEntry().value.owned.files, whole)
    ensures InFlight(d', t, whole) && Settled(d', t) == Settled(d, t)
    ensures StageFits(d', t) == StageFits(d, t)
  {
    DifferenceIsLocal(d, d', Target(t.domain));
    assert Get(d'.trees, Hold(t.id)) == Get(d.trees, Hold(t.id));
    assert Get(d'.trees, Stage(t.id)) == Get(d.trees, Stage(t.id));
    forall q | q != Target(t.domain)
      ensures Get(Settled(d', t).trees, q) == Get(Settled(d, t).trees, q)
    {
      assert Get(d'.trees, q) == Get(d.trees, q);
    }
    forall q ensures Get(Settled(d', t).trees, q) == Get(Settled(d, t).trees, q) {
    }
    MapsEqual(Settled(d', t).trees, Settled(d, t).trees);
  }

  lemma HoldMayReturn(d: Disk, d': Disk, t: Transaction, whole: bool)
    requires InFlight(d, t, whole) && !IsCommitted(d, t)
    requires Hold(t.id) in d.trees && Target(t.domain) !in d.trees
    requires d' == d.(trees := (d.trees - {Hold(t.id)})[Target(t.domain) := d.trees[Hold(t.id)]])
    ensures InFlight(d', t, whole) && Settled(d', t) == Settled(d, t)
    ensures StageFits(d', t) == StageFits(d, t)
  {
    forall q ensures Get(Settled(d', t).trees, q) == Get(Settled(d, t).trees, q) {
    }
    MapsEqual(Settled(d', t).trees, Settled(d, t).trees);
  }

  lemma SmallerStageFits(d: Disk, d': Disk, t: Transaction)
    requires var p := Stage(t.id); p in d'.trees ==> p in d.trees && d'.trees[p].Keys <= d.trees[p].Keys
    ensures StageFits(d, t) ==> StageFits(d', t)
  {
    if Stage(t.id) in d'.trees {
      KeysCount(d'.trees[Stage(t.id)], d.trees[Stage(t.id)]);
    }
  }

  lemma KeysCount(a: Tree, b: Tree)
    requires a.Keys <= b.Keys
    ensures |a| <= |b|
  {
    assert |a| == |a.Keys| && |b| == |b.Keys|;
    assert |b.Keys - a.Keys| == |b.Keys| - |a.Keys|;
  }

  /** The entries of `content` named by `keys`. */
  function Restricted(content: Tree, keys: seq<string>): Tree {
    map k | k in keys && k in content :: content[k]
  }

  lemma RestrictedGrows(content: Tree, order: seq<string>, n: nat)
    requires n < |order| && order[n] in content && order[n] !in order[..n]
    ensures order[n] !in Restricted(content, order[..n])
    ensures Restricted(content, order[..n + 1]) == Restricted(content, order[..n])[order[n] := content[order[n]]]
    ensures Restricted(content, order[..n]).Keys + {order[n]} <= content.Keys
    ensures |Restricted(content, order[..n + 1]).Keys| == |Restricted(content, order[..n]).Keys| + 1
  {
    assert order[..n + 1] == order[..n] + [order[n]];
    OneMoreEntry(map[], Stage(0), Restricted(content, order[..n]), map[], order[n], content[order[n]]);
  }

  lemma OneMoreEntry(others: map<Place, Tree>, p: Place, made: Tree, now: Tree, k: string, digest: string)
    requires k !in made
    ensures others[p := now][p := made[k := digest]] == others[p := made[k := digest]]
    ensures made[k := digest].Keys == made.Keys + {k} && |made[k := digest].Keys| == |made.Keys| + 1
  {
    assert made[k := digest].Keys == made.Keys + {k};
  }

  lemma RestrictedToAll(content: Tree, order: seq<string>)
    requires forall k | k in content :: k in order
    ensures Restricted(content, order[..|order|]) == content
  {
    assert order[..|order|] == order;
  }

  /** Interrupted in entry `n`, a tree has come to exceed the limit exactly when its budget lets it. */
  lemma WrittenTooMany(budget: Budget, spent: nat, n: nat, size: nat)
    requires Affords(budget, spent + 2 * n) && !Affords(budget, spent + 2 * n + 2)
    requires size == n + if Affords(budget, spent + 2 * n + 1) then 1 else 0
    ensures size > MAX_FILES <==> Affords(budget, spent + 2 * MAX_FILES + 1)
  {
  }

  lemma NewPlace(trees: map<Place, Tree>, p: Place, t: Tree)
    requires p !in trees
    ensures trees[p := t] - {p} == trees - {p} == trees
  {
  }

  class Manager {
    var disk: Disk
    var registry: Registry
    var recovery: RecoveryState
    /** How many durable actions succeed until the next interruption, and how many have. */
    var budget: Budget
    var spent: nat
    /** Whether removing a directory tree is one durable action or many. */
    const whole: bool

    constructor (disk: Disk, whole: bool)
      ensures this.disk == disk && registry == disk.registry && recovery == Clean && this.whole == whole
    {
      this.disk, registry, recovery, this.whole, budget, spent := disk, disk.registry, Clean, whole, None, 0;
    }

    // ----- Filesystem primitives -----

    method Spend() returns (r: Outcome)
      modifies this`spent
      ensures r == if Affords(budget, old(spent) + 1) then Ok else Raised(Interrupted)
      ensures spent == old(spent) + if r.Ok? then 1 else 0
    {
      if !Affords(budget, spent + 1) {
        return Raised(Interrupted);
      }
      spent := spent + 1;
      return Ok;
    }

    /** `atomic_json` of the journal. */
    method WriteJournal(t: Transaction) returns (r: Outcome)
      modifies this`disk, this`spent
      ensures r == if Affords(budget, old(spent) + 1) then Ok else Raised(Interrupted)
      ensures disk == if r.Ok? then old(disk).(journal := Some(t)) else old(disk)
      ensures r.Ok? ==> spent == old(spent) + 1
    {
      r := Spend();
      if r.Raised? { return; }
      disk := disk.(journal := Some(t));
      return Ok;
    }

    method UnlinkJournal() returns (r: Outcome)
      modifies this`disk, this`spent
      ensures r == if Affords(budget, old(spent) + 1) then Ok else Raised(Interrupted)
      ensures disk == if r.Ok? then old(disk).(journal := None) else old(disk)
      ensures r.Ok? ==> spent == old(spent) + 1
    {
      r := Spend();
      if r.Raised? { return; }
      disk := disk.(journal := None);
      return Ok;
    }

    /** `atomic_json` of the registry: the commit point. */
    method WriteRegistry(after: Registry) returns (r: Outcome)
      modifies this`disk, this`spent
      ensures r == if Affords(budget, old(spent) + 1) then Ok else Raised(Interrupted)
      ensures disk == if r.Ok? then old(disk).(registry := after) else old(disk)
      ensures r.Ok? ==> spent == old(spent) + 1
    {
      r := Spend();
      if r.Raised? { return; }
      disk := disk.(registry := after);
      return Ok;
    }

    /** `os.replace` of a directory; only an empty directory may be in the way. */
    method Rename(source: Place, target: Place) returns (r: Outcome)
      requires source != target
      modifies this`disk, this`spent
      ensures r.Ok? ==> source in old(disk).trees
                        && disk == old(disk).(trees := (old(disk).trees - {source})[target := old(disk).trees[source]])
      ensures r.Raised? ==> disk == old(disk)
      ensures source in old(disk).trees && target !in old(disk).trees ==>
                r == if Affords(budget, old(spent) + 1) then Ok else Raised(Interrupted)
      ensures r.Ok? ==> spent == old(spent) + 1
      ensures budget.None? ==> r != Raised(Interrupted)
    {
      if source !in disk.trees || (target in disk.trees && disk.trees[target] != map[]) {
        return Raised(StorageFailure);
      }
      :- Spend();
      disk := disk.(trees := (disk.trees - {source})[target := disk.trees[source]]);
      return Ok;
    }

    /** One more entry of the tree at `p`, which an interruption may leave written in part. */
    method WriteEntry(ghost others: map<Place, Tree>, p: Place, made: Tree, k: string, digest: string)
      returns (r: Outcome, now: Tree)
      requires disk.trees == others[p := made] && k !in made
      modifies this`disk, this`spent
      ensures disk == old(disk).(trees := others[p := now]) && now.Keys <= made.Keys + {k}
      ensures r == if Affords(budget, old(spent) + 2) then Ok else Raised(Interrupted)
      ensures r.Ok? ==> now == made[k := digest] && spent == old(spent) + 2
      ensures |now.Keys| == |made.Keys| + if Affords(budget, old(spent) + 1) then 1 else 0
    {
      OneMoreEntry(others, p, made, made, k, "");
      OneMoreEntry(others, p, made, made[k := ""], k, digest);
      now := made;
      r := Spend();
      if r.Raised? { return; }
      now := made[k := ""];
      disk := disk.(trees := disk.trees[p := now]);
      r := Spend();
      if r.Raised? { return; }
      now := made[k := digest];
      disk := disk.(trees := disk.trees[p := now]);
    }

    /** The entries named by `order`, one by one. */
    method WriteInOrder(ghost others: map<Place, Tree>, p: Place, content: Tree, order: seq<string>)
      returns (r: Outcome, made: Tree)
      requires disk.trees == others[p := map[]] && Affords(budget, spent)
      requires forall n | 0 <= n < |order| :: order[n] in content && order[n] !in order[..n]
      modifies this`disk, this`spent
      ensures disk == old(disk).(trees := others[p := made]) && made.Keys <= content.Keys
      ensures r == if Affords(budget, old(spent) + 2 * |order|) then Ok else Raised(Interrupted)
      ensures r.Ok? ==> made == Restricted(content, order[..|order|]) && spent == old(spent) + 2 * |order|
      ensures |order| > MAX_FILES ==>
                (|made.Keys| > MAX_FILES <==> Affords(budget, old(spent) + 2 * MAX_FILES + 1))
    {
      made := map[];
      for n := 0 to |order|
        invariant disk == old(disk).(trees := others[p := made])
        invariant made == Restricted(content, order[..n]) && |made.Keys| == n
        invariant Affords(budget, old(spent) + 2 * n) && spent == old(spent) + 2 * n
      {
        RestrictedGrows(content, order, n);
        r, made := WriteEntry(others, p, made, order[n], content[order[n]]);
        if r.Raised? {
          WrittenTooMany(budget, old(spent), n, |made.Keys|);
          return;
        }
      }
      r := Ok;
    }

    /** The entries of a new directory, in any order. */
    method WriteEntries(ghost others: map<Place, Tree>, p: Place, content: Tree) returns (r: Outcome, made: Tree)
      requires disk.trees == others[p := map[]] && Affords(budget, spent)
      modifies this`disk, this`spent
      ensures disk == old(disk).(trees := others[p := made]) && made.Keys <= content.Keys
      ensures r == if Affords(budget, old(spent) + 2 * |content.Keys|) then Ok else Raised(Interrupted)
      ensures r.Ok? ==> made == content && spent == old(spent) + 2 * |content.Keys|
      ensures |content.Keys| > MAX_FILES ==>
                (|made.Keys| > MAX_FILES <==> Affords(budget, old(spent) + 2 * MAX_FILES + 1))
    {
      var order := SomeOrder(content.Keys);
      r, made := WriteInOrder(others, p, content, order);
      RestrictedToAll(content, order);
    }

    /** Create a directory and write its entries; an interruption leaves a part of them. */
    method Fill(p: Place, content: Tree) returns (r: Outcome)
      requires p !in disk.trees
      modifies this`disk, this`spent
      ensures disk == old(disk).(trees := disk.trees)
      ensures disk.trees - {p} == old(disk).trees - {p}
      ensures p in disk.trees ==> disk.trees[p].Keys <= content.Keys
      ensures r == if Affords(budget, old(spent) + FillSteps(content)) then Ok else Raised(Interrupted)
      ensures p in disk.trees <==> Affords(budget, old(spent) + 1)
      ensures r.Ok? ==> disk.trees == old(disk).trees[p := content] && spent == old(spent) + FillSteps(content)
      ensures |content.Keys| > MAX_FILES ==>
                (p in disk.trees && |disk.trees[p].Keys| > MAX_FILES <==> Affords(budget, old(spent) + OverfullSteps()))
    {
      ghost var others := disk.trees;
      r := Spend();
      if r.Raised? { return; }
      disk := disk.(trees := disk.trees[p := map[]]);
      var made: Tree;
      r, made := WriteEntries(others, p, content);
      NewPlace(others, p, made);
    }

    method SomeOrder(keys: set<string>) returns (order: seq<string>)
      ensures |order| == |keys| && forall k :: k in order <==> k in keys
      ensures forall n | 0 <= n < |order| :: order[n] in keys && order[n] !in order[..n]
    {
      var rest := keys;
      order := [];
      while rest != {}
        invariant rest <= keys && |order| + |rest| == |keys|
        invariant forall k :: k in order <==> k in keys - rest
        invariant forall n | 0 <= n < |order| :: order[n] !in order[..n]
        decreases rest
      {
        var k :| k in rest;
        ghost var before := order;
        order, rest := order + [k], rest - {k};
        assert forall n | 0 <= n < |order| :: order[..n] == before[..n];
      }
    }

    method Verify(p: Place, files: Tree) returns (r: Outcome)
      ensures r == if Verified(disk, p, files) then Ok else Raised(OwnershipConflict)
    {
      return if Verified(disk, p, files) then Ok else Raised(OwnershipConflict);
    }

    method CopyOwned(source: Place, p: Place, files: Tree) returns (r: Outcome)
      requires source != p
      modifies this`disk, this`spent
      ensures disk == old(disk).(trees := disk.trees)
      ensures disk.trees - {p} == old(disk).trees - {p}
      ensures p in old(disk).trees ==> disk == old(disk)
      ensures disk != old(disk) ==> Verified(old(disk), source, files)
      ensures p in disk.trees && p !in old(disk).trees ==> disk.trees[p].Keys <= files.Keys
      ensures r.Ok? ==> p !in old(disk).trees && disk.trees == old(disk).trees[p := files]
                        && Verified(old(disk), source, files)
      ensures Verified(old(disk), source, files) && p !in old(disk).trees ==>
                && r == (if Affords(budget, old(spent) + FillSteps(files)) then Ok else Raised(Interrupted))
                && (p in disk.trees <==> Affords(budget, old(spent) + 1))
      ensures r.Ok? ==> spent == old(spent) + FillSteps(files)
      ensures budget.None? ==> r != Raised(Interrupted)
    {
      r := Verify(source, files);
      if r.Raised? { return; }
      if p in disk.trees {
        return Raised(BackupConflict);
      }
      :- Fill(p, disk.trees[source]);
      r := Verify(p, files);
    }

    /** Delete a tree, but only one that matches its recorded files. */
    method RemoveOwned(p: Place, files: Tree) returns (r: Outcome)
      requires Affords(budget, spent)
      modifies this`disk, this`spent
      ensures disk == old(disk).(trees := disk.trees)
      ensures disk.trees - {p} == old(disk).trees - {p}
      ensures disk != old(disk) ==> Verified(old(disk), p, files)
      ensures r.Ok? ==> Verified(old(disk), p, files) && disk.trees == old(disk).trees - {p}
      ensures r == Raised(Interrupted) ==>
                Verified(old(disk), p, files) && p in disk.trees && Part(disk.trees[p], files, whole)
      ensures r.Raised? && r != Raised(Interrupted) ==> disk == old(disk) && !Verified(disk, p, files)
      ensures Verified(old(disk), p, files) ==> (r.Ok? <==> Affords(budget, old(spent) + RemovalSteps(files, whole)))
      ensures r.Ok? ==> spent == old(spent) + RemovalSteps(files, whole)
      ensures budget.None? ==> r != Raised(Interrupted)
    {
      r := Verify(p, files);
      if r.Raised? { return; }
      assert disk.trees[p] == files;
      if !whole {
        r := Empty(p, files);
        if r.Raised? { return; }
      }
      ghost var emptied := disk;
      r := Spend();
      if r.Raised? { return; }
      disk := disk.(trees := disk.trees - {p});
      assert disk.trees == emptied.trees - {p} == old(disk).trees - {p};
    }

    /** File by file, in any order. */
    method Empty(p: Place, files: Tree) returns (r: Outcome)
      requires p in disk.trees && Submap(disk.trees[p], files)
      requires Affords(budget, spent)
      modifies this`disk, this`spent
      ensures disk == old(disk).(trees := disk.trees)
      ensures p in disk.trees && disk.trees - {p} == old(disk).trees - {p} && Submap(disk.trees[p], files)
      ensures r == if Affords(budget, old(spent) + |old(disk).trees[p].Keys|) then Ok else Raised(Interrupted)
      ensures r.Ok? ==> spent == old(spent) + |old(disk).trees[p].Keys|
    {
      ghost var all := |disk.trees[p].Keys|;
      while disk.trees[p] != map[]
        invariant disk == old(disk).(trees := disk.trees)
        invariant p in disk.trees && disk.trees - {p} == old(disk).trees - {p}
        invariant Submap(disk.trees[p], files) && |disk.trees[p].Keys| <= all
        invariant Affords(budget, old(spent) + all - |disk.trees[p].Keys|)
                  && spent == old(spent) + all - |disk.trees[p].Keys|
        decreases disk.trees[p].Keys
      {
        var k :| k in disk.trees[p];
        :- Spend();
        disk := disk.(trees := disk.trees[p := disk.trees[p] - {k}]);
      }
      return Ok;
    }

    method RemoveStage(p: Place) returns (r: Outcome)
      requires Affords(budget, spent)
      modifies this`disk, this`spent
      ensures DiffersAt(old(disk), disk, p)
      ensures r.Ok? ==> disk.trees == old(disk).trees - {p}
      ensures r != Raised(Interrupted) ==> (r.Raised? <==> p in old(disk).trees && !Hashable(old(disk).trees[p]))
      ensures p in old(disk).trees && !Hashable(old(disk).trees[p]) ==> r.Raised? && disk == old(disk)
      ensures p in disk.trees ==> p in old(disk).trees && disk.trees[p].Keys <= old(disk).trees[p].Keys
      ensures var steps := if p in old(disk).trees then RemovalSteps(old(disk).trees[p], whole) else 0;
              && (r.Ok? <==>
                   (p in old(disk).trees ==> Hashable(old(disk).trees[p])) && Affords(budget, old(spent) + steps))
              && (r.Ok? ==> spent == old(spent) + steps)
      ensures budget.None? ==> r != Raised(Interrupted)
    {
      if p in disk.trees {
        if !Hashable(disk.trees[p]) {
          return Raised(OwnershipConflict);
        }
        r := RemoveOwned(p, disk.trees[p]);
      } else {
        assert disk.trees - {p} == disk.trees;
        return Ok;
      }
    }

    /** `_remove_stage` and the unlinking of the journal, the common end of both recoveries. */
    method Conclude(t: Transaction) returns (r: Outcome)
      requires InFlight(disk, t, whole) && Doomed(disk, t).None?
      requires !IsCommitted(disk, t) ==> Hold(t.id) !in disk.trees
      requires Affords(budget, spent)
      modifies this`disk, this`spent
      ensures Recovers(old(disk), t, r, disk, whole)
      ensures r.Ok? <==> StageFits(old(disk), t) && Affords(budget, old(spent) + ConcludeSteps(old(disk), t, whole))
      ensures budget.None? ==> r != Raised(Interrupted)
    {
      ghost var d := disk;
      r := RemoveStage(Stage(t.id));
      StageMayChange(d, disk, t, whole);
      SmallerStageFits(d, disk, t);
      if r.Raised? {
        return;
      }
      r := UnlinkJournal();
      if r.Ok? {
        assert Hold(t.id) !in d.trees;
        assert disk.trees == d.trees - {Stage(t.id), Hold(t.id)};
        MapsEqual(disk.trees, Settled(d, t).trees) by {
          forall p ensures Get(disk.trees, p) == Get(Settled(d, t).trees, p) {
          }
        }
      }
    }

    /** The old tree of a committed transaction goes. */
    method DropHold(t: Transaction) returns (r: Outcome)
      requires InFlight(disk, t, whole) && IsCommitted(disk, t) && Affords(budget, spent)
      modifies this`disk, this`spent
      ensures InFlight(disk, t, whole) && disk.registry == old(disk).registry
      ensures Settled(disk, t) == Settled(old(disk), t)
      ensures Get(disk.trees, Stage(t.id)) == Get(old(disk).trees, Stage(t.id))
      ensures r.Ok? ==> Doomed(disk, t).None? && spent == old(spent) + DoomedSteps(old(disk), t, whole)
      ensures r.Ok? <==> DoomedMatches(old(disk), t) && Affords(budget, old(spent) + DoomedSteps(old(disk), t, whole))
      ensures r.Raised? && r != Raised(Interrupted) ==> !DoomedMatches(old(disk), t)
      ensures budget.None? ==> r != Raised(Interrupted)
    {
      var hold := Hold(t.id);
      if hold !in disk.trees { return Ok; }
      ghost var d := disk;
      r := RemoveOwned(hold, t.OldEntry().value.owned.files);
      HoldMayShrink(d, disk, t, whole);
      DifferenceIsLocal(d, disk, hold);
    }

    method Finish(t: Transaction) returns (r: Outcome)
      requires InFlight(disk, t, whole) && IsCommitted(disk, t) && Affords(budget, spent)
      modifies this`disk, this`spent
      ensures Recovers(old(disk), t, r, disk, whole)
      ensures r.Ok? <==> Recoverable(old(disk), t) && Affords(budget, old(spent) + RecoverySteps(old(disk), t, whole))
      ensures budget.None? ==> r != Raised(Interrupted)
    {
      var target := Target(t.domain);
      if t.NewEntry().Some? {
        r := Verify(target, t.NewEntry().value.owned.files);
      } else {
        r := if target in disk.trees then Raised(RecoveryRequired) else Ok;
      }
      assert r.Ok?;
      ghost var d := disk;
      r := DropHold(t);
      SameStage(d, disk, t, whole);
      if r.Raised? { return; }
      r := Conclude(t);
    }

    method LoadState()
      modifies this`registry
      ensures registry == disk.registry
    {
      registry := disk.registry;
    }

    /** `_recover`: finish a committed transaction, otherwise put the old tree back. */
    method Recover() returns (r: Outcome)
      requires registry == disk.registry
      requires disk.journal.Some? ==> InFlight(disk, disk.journal.value, whole)
      requires Affords(budget, spent)
      modifies this`disk, this`spent, this`recovery
      ensures old(disk).journal.None? ==> r == Ok && disk == old(disk)
      ensures old(disk).journal.Some? ==> Recovers(old(disk), old(disk).journal.value, r, disk, whole)
      ensures r.Ok? <==> (old(disk).journal.Some? ==>
                Recoverable(old(disk), old(disk).journal.value)
                && Affords(budget, old(spent) + RecoverySteps(old(disk), old(disk).journal.value, whole)))
      ensures budget.None? ==> r != Raised(Interrupted)
      ensures recovery == if old(disk).journal.None? || r.Raised? then old(recovery)
                          else if IsCommitted(old(disk), old(disk).journal.value) then FinishedTransaction
                          else RolledBackTransaction
    {
      if disk.journal.None? {
        return Ok;
      }
      var t := disk.journal.value;
      if registry == t.after && t.after != t.before {
        r := Finish(t);
        if r.Ok? { recovery := FinishedTransaction; }
        return;
      }
      assert registry == t.before;
      ghost var d := disk;
      r := RestoreOld(t);
      SameStage(d, disk, t, whole);
      if r.Ok? {
        r := Conclude(t);
      }
      if r.Ok? { recovery := RolledBackTransaction; }
    }

    /** The uncommitted half of `_recover`, up to the clean-up of the stage. */
    method RestoreOld(t: Transaction) returns (r: Outcome)
      requires InFlight(disk, t, whole) && !IsCommitted(disk, t)
      requires Affords(budget, spent)
      modifies this`disk, this`spent
      ensures InFlight(disk, t, whole) && disk.registry == old(disk).registry
      ensures Settled(disk, t) == Settled(old(disk), t)
      ensures Get(disk.trees, Stage(t.id)) == Get(old(disk).trees, Stage(t.id))
      ensures r.Ok? ==> Hold(t.id) !in disk.trees && Doomed(disk, t).None?
      ensures r.Ok? <==>
                && DoomedMatches(old(disk), t)
                && Affords(budget, old(spent) + RestoreSteps(old(disk), t, whole))
      ensures r.Ok? ==> spent == old(spent) + RestoreSteps(old(disk), t, whole)
      ensures r.Raised? && r != Raised(Interrupted) ==> !DoomedMatches(old(disk), t)
      ensures budget.None? ==> r != Raised(Interrupted)
    {
      var target, hold := Target(t.domain), Hold(t.id);
      ghost var d := disk;
      if hold in disk.trees {
        assert Verified(disk, hold, t.OldEntry().value.owned.files);
        if target in disk.trees {
          r := RemoveOwned(target, t.NewEntry().value.owned.files);
          TargetMayShrink(d, disk, t, whole);
          DifferenceIsLocal(d, disk, target);
          if r.Raised? {
            return;
          }
        }
        ghost var e := disk;
        r := Rename(hold, target);
        if r.Ok? {
          HoldMayReturn(e, disk, t, whole);
        }
      } else if t.OldEntry().Some? {
        r := Verify(target, t.OldEntry().value.owned.files);
      } else if target in disk.trees {
        r := RemoveOwned(target, t.NewEntry().value.owned.files);
        TargetMayShrink(d, disk, t, whole);
        DifferenceIsLocal(d, disk, target);
      } else {
        return Ok;
      }
    }

    /** Load the state and recover, as every request and every restart begins. */
    method Open(opening: Budget) returns (r: Outcome)
      requires disk.journal.Some? ==> InFlight(disk, disk.journal.value, whole)
      modifies this
      ensures r.Ok? <==> Opens(old(disk), opening, whole)
      ensures registry == disk.registry == old(disk).registry && Ending(disk) == Ending(old(disk))
      ensures if r.Ok? then disk == Ending(old(disk)) && disk.journal.None? else StillOpen(old(disk), disk, whole)
      ensures recovery == if old(disk).journal.None? || r.Raised? then old(recovery)
                          else if IsCommitted(old(disk), old(disk).journal.value) then FinishedTransaction
                          else RolledBackTransaction
      ensures whole && opening.None? && (old(disk).journal.Some? ==> StageFits(old(disk), old(disk).journal.value)) ==>
                r.Ok?
    {
      budget, spent := opening, 0;
      LoadState();
      r := Recover();
    }

    // ----- The change itself -----

    /** Extract the archive, or copy the backup, into the stage. */
    method StageNew(id: nat, payload: Payload, host: Host) returns (r: Outcome)
      requires Stage(id) !in disk.trees
      modifies this`disk, this`spent
      ensures DiffersAt(old(disk), disk, Stage(id))
      ensures r.Ok? ==> Hashable(payload.Files()) && disk.trees == old(disk).trees[Stage(id) := payload.Files()]
      ensures Stage(id) in disk.trees && (Hashable(payload.Files()) || payload.Saved?) ==>
                Hashable(disk.trees[Stage(id)])
      ensures payload.Archive? && !Hashable(payload.Files()) ==>
                (Stage(id) in disk.trees && !Hashable(disk.trees[Stage(id)])
                 <==> Affords(budget, old(spent) + OverfullSteps()))
      ensures budget.None? ==> r != Raised(Interrupted)
      ensures r.Ok? <==>
                && host.nativeDependenciesOk && Hashable(payload.Files())
                && (payload.Saved? ==> Verified(old(disk), BackupDir(payload.backup), payload.files))
                && Affords(budget, old(spent) + FillSteps(payload.Files()))
      ensures r.Ok? ==> spent == old(spent) + FillSteps(payload.Files())
    {
      if payload.Saved? {
        r := CopyOwned(BackupDir(payload.backup), Stage(id), payload.files);
      } else {
        r := Fill(Stage(id), payload.tree);
      }
      if Stage(id) in disk.trees { KeysCount(disk.trees[Stage(id)], payload.Files()); }
      assert |payload.Files()| == |payload.Files().Keys|;
      assert Stage(id) in disk.trees ==> |disk.trees[Stage(id)]| == |disk.trees[Stage(id)].Keys|;
      if r.Raised? { return; }
      if !host.nativeDependenciesOk {
        return Raised(NativeDependency);
      }
      if !Hashable(disk.trees[Stage(id)]) {
        return Raised(OwnershipConflict);
      }
    }

    /** Stage the new tree, if there is one. */
    method StageChange(id: nat, change: Change, host: Host) returns (r: Outcome)
      requires Stage(id) !in disk.trees && Affords(budget, spent)
      modifies this`disk, this`spent
      ensures DiffersAt(old(disk), disk, Stage(id))
      ensures r.Ok? ==>
                disk.trees == if change.Replace? then old(disk).trees[Stage(id) := change.payload.Files()]
                else old(disk).trees
      ensures r.Ok? <==> StagePasses(old(disk), change, host) && Affords(budget, old(spent) + StagingSteps(change))
      ensures r.Ok? ==> spent == old(spent) + StagingSteps(change)
      ensures Stage(id) in disk.trees && !Hashable(disk.trees[Stage(id)]) <==>
                OverfullArchive(change) && Affords(budget, old(spent) + OverfullSteps())
      ensures change.Remove? ==> disk == old(disk)
      ensures budget.None? ==> r != Raised(Interrupted)
    {
      if change.Remove? { return Ok; }
      r := StageNew(id, change.payload, host);
    }

    /** Back the old tree up, if there is one. */
    method BackUp(domain: string, id: nat) returns (r: Outcome)
      requires registry == disk.registry && Affords(budget, spent)
      requires domain in registry.installed ==> Verified(disk, Target(domain), registry.installed[domain].owned.files)
      modifies this`disk, this`spent
      ensures DiffersAt(old(disk), disk, BackupDir(id))
      ensures r.Ok? ==>
                disk.trees == WithBackup(old(disk), domain, id) && spent == old(spent) + BackupSteps(old(disk), domain)
      ensures r.Ok? <==> (domain in registry.installed ==> BackupDir(id) !in old(disk).trees)
                         && Affords(budget, old(spent) + BackupSteps(old(disk), domain))
      ensures BackupDir(id) in old(disk).trees ==> disk == old(disk)
      ensures BackupDir(id) in disk.trees <==>
                BackupDir(id) in old(disk).trees || (domain in registry.installed && Affords(budget, old(spent) + 1))
      ensures budget.None? ==> r != Raised(Interrupted)
    {
      if domain !in registry.installed { return Ok; }
      r := CopyOwned(Target(domain), BackupDir(id), registry.installed[domain].owned.files);
    }

    /** Stage the new tree and back the old one up. */
    method PrepareTrees(domain: string, id: nat, change: Change, host: Host) returns (r: Outcome)
      requires registry == disk.registry && Stage(id) !in disk.trees && Affords(budget, 1) && spent == 1
      requires domain in registry.installed ==> Verified(disk, Target(domain), registry.installed[domain].owned.files)
      modifies this`disk, this`spent
      ensures disk == old(disk).(trees := disk.trees)
      ensures SameButPrepared(old(disk), disk, id)
      ensures r.Ok? ==> disk.trees == StagedTrees(old(disk), domain, id, change)
      ensures r.Ok? <==>
                && StagePasses(old(disk), change, host)
                && (domain in registry.installed ==> BackupDir(id) !in old(disk).trees)
                && Affords(budget, 1 + StagingSteps(change) + BackupSteps(old(disk), domain))
      ensures r.Ok? ==> spent == 1 + StagingSteps(change) + BackupSteps(old(disk), domain)
      ensures Stage(id) in disk.trees && !Hashable(disk.trees[Stage(id)]) <==> Jams(change, budget)
      ensures BackupDir(id) in disk.trees <==>
                BackupDir(id) in old(disk).trees || BacksUp(old(disk), domain, change, host, budget)
      ensures change.Remove? ==> Stage(id) !in disk.trees
      ensures budget.None? ==> r != Raised(Interrupted)
    {
      ghost var begun := disk;
      r := StageChange(id, change, host);
      PreparedPlaces(begun, disk, disk, id);
      if r.Raised? { return; }
      ghost var staged := disk;
      r := BackUp(domain, id);
      PreparedPlaces(begun, staged, disk, id);
    }

    /** Journal, stage the new tree, back the old one up, and journal the planned registry. */
    method Prepare(domain: string, id: nat, change: Change, host: Host) returns (r: Outcome)
      requires Startable(disk, domain, change) && registry == disk.registry && spent == 0
      modifies this`disk, this`spent
      ensures r.Raised? ==>
                || disk == old(disk)
                || (disk.journal.Some? && Preparing(old(disk), disk, domain, id, disk.journal.value)
                    && disk.journal.value.before == disk.journal.value.after)
      ensures r.Ok? ==>
                var after := PlannedRegistry(registry, domain, id, change);
                disk == Disk(Some(Transaction(id, domain, Staged, registry, after)), registry,
                             StagedTrees(old(disk), domain, id, change))
      ensures r.Ok? <==>
                && StagePasses(old(disk), change, host)
                && (domain in registry.installed ==> BackupDir(id) !in old(disk).trees)
                && Affords(budget, PrepareSteps(old(disk), domain, change))
      ensures r.Ok? ==> spent == PrepareSteps(old(disk), domain, change)
      ensures Stage(id) in disk.trees && !Hashable(disk.trees[Stage(id)]) <==> Jams(change, budget)
      ensures change.Remove? ==> Stage(id) !in disk.trees
      ensures disk.journal.Some? <==> Affords(budget, 1)
      ensures BackupDir(id) in disk.trees <==>
                BackupDir(id) in old(disk).trees || BacksUp(old(disk), domain, change, host, budget)
      ensures budget.None? ==> r != Raised(Interrupted)
    {
      var before := registry;
      if Stage(id) in disk.trees || Hold(id) in disk.trees {
        return Raised(PathConflict);
      }
      r := WriteJournal(Transaction(id, domain, Prepared, before, before));
      if r.Raised? { return; }
      JournalIsNeutral(old(disk), disk, domain, id, change, host, budget);
      r := PrepareTrees(domain, id, change, host);
      if r.Raised? { return; }
      r := WriteJournal(Transaction(id, domain, Staged, before, PlannedRegistry(before, domain, id, change)));
    }

    /** The old tree moves to the hold. */
    method Retire(domain: string, change: Change, ghost start: Disk, t: Transaction) returns (r: Outcome)
      requires Startable(start, domain, change) && Planned(start, disk, domain, change, t)
      requires disk == Disk(Some(t), start.registry, StagedTrees(start, domain, t.id, change))
      modifies this`disk, this`spent
      ensures r.Raised? ==> r == Raised(Interrupted) && Undone(start, old(disk), disk, domain, change, t, whole)
      ensures r.Ok? ==>
                disk == Disk(Some(t.(phase := OldMoved)), start.registry, HeldTrees(start, domain, t.id, change))
      ensures var steps := (if domain in start.registry.installed then 1 else 0) + 1;
              (r.Ok? <==> Affords(budget, old(spent) + steps)) && (r.Ok? ==> spent == old(spent) + steps)
    {
      StagedPositions(start, disk, domain, change, t, whole);
      if domain in t.before.installed {
        r := Rename(Target(domain), Hold(t.id));
        if r.Raised? { return; }
      }
      HeldPositions(start, disk, domain, change, t, whole);
      r := WriteJournal(t.(phase := OldMoved));
    }

    /** The new tree moves to the target. */
    method Promote(domain: string, change: Change, ghost start: Disk, t: Transaction) returns (r: Outcome)
      requires Startable(start, domain, change) && Planned(start, disk, domain, change, t)
      requires disk == Disk(Some(t), start.registry, HeldTrees(start, domain, t.id, change))
      modifies this`disk, this`spent
      ensures r.Raised? ==> r == Raised(Interrupted) && Undone(start, old(disk), disk, domain, change, t, whole)
      ensures r.Ok? ==>
                disk == Disk(Some(t.(phase := NewMoved)), start.registry, SwappedTrees(start, domain, t.id, change))
      ensures var steps := (if change.Replace? then 1 else 0) + 1;
              (r.Ok? <==> Affords(budget, old(spent) + steps)) && (r.Ok? ==> spent == old(spent) + steps)
    {
      HeldPositions(start, disk, domain, change, t, whole);
      if change.Replace? {
        r := Rename(Stage(t.id), Target(domain));
        if r.Raised? { return; }
      }
      SwappedPositions(start, disk, domain, change, t, whole);
      r := WriteJournal(t.(phase := NewMoved));
    }

    /** The last checks and the two directory renames, each journaled. */
    method Swap(domain: string, change: Change, host: Host, ghost start: Disk, t: Transaction) returns (r: Outcome)
      requires Startable(start, domain, change) && Planned(start, disk, domain, change, t)
      requires disk == Disk(Some(t), start.registry, StagedTrees(start, domain, t.id, change))
               && registry == disk.registry
      modifies this`disk, this`spent
      ensures r.Raised? ==>
                && r == Raised(if change.Remove? && !host.entriesClearAtSwap then NativeEntriesRemain else Interrupted)
                && Undone(start, old(disk), disk, domain, change, t, whole)
      ensures r.Ok? <==>
                (change.Remove? ==> host.entriesClearAtSwap)
                && Affords(budget, old(spent) + SwapSteps(start, domain, change))
      ensures r.Ok? ==> spent == old(spent) + SwapSteps(start, domain, change)
      ensures r.Ok? ==>
                disk == Disk(Some(t.(phase := NewMoved)), start.registry, SwappedTrees(start, domain, t.id, change))
    {
      StagedPositions(start, disk, domain, change, t, whole);
      r := CheckTarget(domain, if change.Replace? then Some((change.source, change.repository)) else None);
      assert r.Ok?;
      if change.Remove? && !host.entriesClearAtSwap {
        return Raised(NativeEntriesRemain);
      }
      r := Retire(domain, change, start, t);
      if r.Raised? { return; }
      ghost var retired := disk;
      HeldKeepsBackup(start, domain, t.id, change);
      r := Promote(domain, change, start, t.(phase := OldMoved));
    }

    /** The commit point and the clean-up after it. */
    method Commit(domain: string, change: Change, ghost start: Disk, t: Transaction) returns (r: Outcome)
      requires Startable(start, domain, change) && Planned(start, disk, domain, change, t)
      requires disk == Disk(Some(t), start.registry, SwappedTrees(start, domain, t.id, change))
      modifies this`disk, this`spent, this`registry
      ensures r.Raised? ==> Pending(start, disk, domain, t.id, change, whole) && r == Raised(Interrupted)
                            && StageFits(disk, disk.journal.value)
      ensures disk.registry == if Affords(budget, old(spent) + 1) then t.after else start.registry
      ensures Affords(budget, old(spent) + 1) ==> Ending(disk) == AfterDisk(start, domain, t.id, change)
      ensures !Affords(budget, old(spent) + 1) ==> disk == old(disk)
      ensures r.Ok? <==> Affords(budget, old(spent) + 1 + CleanupSteps(start, domain, whole))
      ensures r.Ok? ==> disk == AfterDisk(start, domain, t.id, change) && registry == disk.registry
    {
      SwappedPositions(start, disk, domain, change, t, whole);
      :- WriteRegistry(t.after);
      registry := t.after;
      CommittedSettlesAfter(start, disk, domain, change, t, whole);
      :- WriteJournal(t.(phase := Phase.Committed));
      CommittedSettlesAfter(start, disk, domain, change, t.(phase := Phase.Committed), whole);
      r := Finish(t.(phase := Phase.Committed));
    }

    /** The part of `_change` behind the preparations. */
    method Carry(domain: string, id: nat, change: Change, host: Host, ghost start: Disk, t: Transaction)
      returns (r: Outcome)
      requires Startable(start, domain, change) && Planned(start, disk, domain, change, t) && t.id == id
               && t.phase == Staged
      requires disk == Disk(Some(t), start.registry, StagedTrees(start, domain, id, change))
               && registry == disk.registry
      requires StagePasses(start, change, host)
               && (domain in start.registry.installed ==> BackupDir(id) !in start.trees)
      requires spent == PrepareSteps(start, domain, change) && Affords(budget, spent)
      modifies this`disk, this`spent, this`registry
      ensures r.Ok? ==> disk == AfterDisk(start, domain, id, change) && registry == disk.registry
      ensures r.Raised? ==> disk.journal.Some? && StageFits(disk, disk.journal.value)
      ensures Changed(start, disk, r, domain, id, change, host, budget, whole)
      ensures budget.None? ==> r != Raised(Interrupted)
    {
      StagedBackup(start, domain, id, change, host, budget);
      r := Swap(domain, change, host, start, t);
      if r.Raised? {
        Uncommitted(start, disk, r, domain, id, change, host, budget, whole);
        return;
      }
      PlannedRecords(start, disk, domain, change, t.(phase := NewMoved));
      r := Commit(domain, change, start, t.(phase := NewMoved));
      if disk.registry == start.registry {
        Uncommitted(start, disk, r, domain, id, change, host, budget, whole);
      } else {
        CommittedChange(start, disk, r, domain, id, change, host, budget, whole);
      }
    }

    /** The body of `_change` up to its exception handler. */
    method Attempt(domain: string, id: nat, change: Change, host: Host, limit: Budget) returns (r: Outcome)
      requires Startable(disk, domain, change) && registry == disk.registry
      requires change.Replace? ==> Replaces(registry, domain, NewOwned(id, change))
      modifies this`disk, this`budget, this`spent, this`registry
      ensures r.Ok? ==> disk == AfterDisk(old(disk), domain, id, change) && registry == disk.registry
                        && Committable(old(disk), domain, id, change)
      ensures r.Raised? && disk.journal.None? ==> disk == old(disk)
      ensures r.Raised? && disk.journal.Some? ==> (StageFits(disk, disk.journal.value) <==> !Jams(change, limit))
      ensures Jams(change, limit) ==> r.Raised? && disk.journal.Some?
      ensures limit.None? ==> r != Raised(Interrupted)
      ensures Changed(old(disk), disk, r, domain, id, change, host, limit, whole)
      ensures r.Raised? ==> (disk.journal.Some? <==> Affords(limit, 1))
    {
      ghost var start := disk;
      budget, spent := limit, 0;
      r := Prepare(domain, id, change, host);
      if r.Raised? {
        if disk != start {
          PreparingIsPending(start, disk, domain, id, change, disk.journal.value, whole);
        }
        Uncommitted(start, disk, r, domain, id, change, host, limit, whole);
        return;
      }
      r := Carry(domain, id, change, host, start, disk.journal.value);
    }

    /** `_change` within the budget `limit`: when the body raises and the process survives, recover at
        once with the budget `retry`; `died` says that the process did not survive the interruption. */
    method ChangeDomain(domain: string, id: nat, change: Change, host: Host, limit: Budget, died: bool, retry: Budget)
      returns (r: Outcome)
      requires Startable(disk, domain, change) && registry == disk.registry
      requires change.Replace? ==> Replaces(registry, domain, NewOwned(id, change))
      modifies this
      ensures r.Ok? ==> disk == AfterDisk(old(disk), domain, id, change) && registry == disk.registry
      ensures Changed(old(disk), disk, r, domain, id, change, host, limit, whole)
      ensures disk.journal.None? ==> BeforeOrAfter(old(disk), disk, domain, id, change)
      ensures recovery ==
                if r.Ok? || (died && r == Raised(Interrupted)) then old(recovery)
                else if disk.journal.Some? then Required
                else if Commits(old(disk), domain, id, change, host, limit) then FinishedTransaction
                else if Affords(limit, 1) then RolledBackTransaction
                else old(recovery)
      ensures disk.journal.Some? ==> (StageFits(disk, disk.journal.value) <==> !Jams(change, limit))
      ensures whole && !died && retry.None? ==> (disk.journal.Some? <==> Jams(change, limit))
      ensures Jams(change, limit) ==> r.Raised? && disk.journal.Some? && !Recoverable(disk, disk.journal.value)
    {
      r := Attempt(domain, id, change, host, limit);
      ChangedEither(old(disk), disk, r, domain, id, change, host, limit, whole);
      if r.Ok? || (died && r == Raised(Interrupted)) {
        return;
      }
      ghost var attempted := disk;
      r := Salvage(r, retry);
      StillChanged(old(disk), attempted, disk, r, domain, id, change, host, limit, whole);
    }

    /** The exception handler of `_change`. */
    method Salvage(error: Outcome, retry: Budget) returns (r: Outcome)
      requires error.Raised? && (disk.journal.Some? ==> InFlight(disk, disk.journal.value, whole))
      modifies this
      ensures r == if Opens(old(disk), retry, whole) then error else Raised(RecoveryRequired)
      ensures disk.registry == old(disk).registry && Ending(disk) == Ending(old(disk))
      ensures if Opens(old(disk), retry, whole) then disk.journal.None? else StillOpen(old(disk), disk, whole)
      ensures recovery == if !Opens(old(disk), retry, whole) then Required
                          else if old(disk).journal.None? then old(recovery)
                          else if IsCommitted(old(disk), old(disk).journal.value) then FinishedTransaction
                          else RolledBackTransaction
      ensures whole && retry.None? && (old(disk).journal.Some? ==> StageFits(old(disk), old(disk).journal.value)) ==>
                Opens(old(disk), retry, whole)
    {
      r := Open(retry);
      if r.Raised? {
        recovery := Required;
        return Raised(RecoveryRequired);
      }
      r := error;
    }

    /** Crash the change anywhere, crash any number of recoveries anywhere, then let one run on:
        what is left is exactly the before disk or exactly the after disk. */
    method CrashThenRecover(domain: string, id: nat, change: Change, host: Host, limit: Budget, crashes: seq<nat>)
      returns (r: Outcome)
      requires Startable(disk, domain, change) && registry == disk.registry
      requires change.Replace? ==> Replaces(registry, domain, NewOwned(id, change))
      modifies this
      ensures r.Ok? ==> disk.journal.None? && BeforeOrAfter(old(disk), disk, domain, id, change)
      ensures if Commits(old(disk), domain, id, change, host, limit)
              then Ending(disk) == AfterDisk(old(disk), domain, id, change)
              else SameBut(old(disk), Ending(disk), id)
      ensures r.Raised? ==> Pending(old(disk), disk, domain, id, change, whole)
      ensures whole ==> (r.Ok? <==> !Jams(change, limit))
    {
      var _ := ChangeDomain(domain, id, change, host, limit, true, None);
      ghost var ending := Ending(disk);
      for i := 0 to |crashes|
        invariant Ending(disk) == ending
        invariant disk.journal.None? ==> BeforeOrAfter(old(disk), disk, domain, id, change)
        invariant disk.journal.Some? ==> Pending(old(disk), disk, domain, id, change, whole)
        invariant disk.journal.Some? ==> (StageFits(disk, disk.journal.value) <==> !Jams(change, limit))
        invariant Jams(change, limit) ==> disk.journal.Some?
      {
        var _ := Open(Some(crashes[i]));
      }
      r := Open(None);
    }

    // ----- The checks in front of a change -----

    /** `_check_target`: the component directory is absent, or owned and unmodified. */
    method CheckTarget(domain: string, owner: Option<(string, string)>) returns (r: Outcome)
      requires registry == disk.registry
      ensures r.Ok? <==> TargetOwned(disk, domain, owner)
    {
      if domain in registry.installed {
        var current := registry.installed[domain].owned;
        if owner.Some? && owner.value != (current.source, current.repository) {
          return Raised(OwnershipConflict);
        }
        r := Verify(Target(domain), current.files);
      } else {
        r := if Target(domain) in disk.trees then Raised(OwnershipConflict) else Ok;
      }
    }

    method CheckProvider(want: Identity, replacing: string, compatible: set<Module>) returns (r: Outcome)
      requires registry == disk.registry
      ensures r.Ok? <==> ProviderPasses(disk, want, replacing, compatible)
    {
      var matches := Providers(registry, want);
      if |matches| != 1 || replacing in matches {
        return Raised(Rejected);
      }
      var e :| e in matches;
      assert |matches - {e}| == 0 && matches == {e};
      if registry.installed[e].owned.mod !in compatible {
        return Raised(Rejected);
      }
      r := Verify(Target(e), registry.installed[e].owned.files);
    }

    /** `_check_dependencies`. */
    method CheckDependencies(mod: Module, replacing: string, compatible: set<Module>) returns (r: Outcome)
      requires registry == disk.registry
      ensures r.Ok? <==> DependenciesPass(disk, mod, replacing, compatible)
    {
      for i := 0 to |mod.dependencies|
        invariant forall j | 0 <= j < i :: ProviderPasses(disk, mod.dependencies[j], replacing, compatible)
      {
        r := CheckProvider(mod.dependencies[i], replacing, compatible);
        if r.Raised? { return; }
      }
      return if DependentConflict(registry, mod, replacing) then Raised(Rejected) else Ok;
    }

    /** The checks of `install`, in their order. */
    method AdmitInstall(source: string, repository: string, mod: Module, ghost change: Change, compatible: set<Module>)
      returns (r: Outcome)
      requires registry == disk.registry && Chained(registry)
      requires change.Replace? && change.source == source && change.repository == repository && change.mod == mod
      ensures r.Ok? ==> Admitted(disk, mod.domain, change)
      ensures r.Ok? <==> InstallPasses(disk, source, repository, mod, compatible)
    {
      if mod !in compatible { return Raised(Rejected); }
      r := CheckTarget(mod.domain, Some((source, repository)));
      if r.Raised? { return; }
      if mod.domain in registry.installed {
        var current := registry.installed[mod.domain].owned;
        if current.mod.id != mod.id { return Raised(OwnershipConflict); }
        if current.mod.version == mod.version { return Raised(Rejected); }
      }
      r := CheckDependencies(mod, mod.domain, compatible);
    }

    /** The checks of `rollback`, in their order. */
    method AdmitRollback(domain: string, record: Backup, compatible: set<Module>) returns (r: Outcome)
      requires registry == disk.registry && Chained(registry)
      requires RollbackRecord(registry, domain) == Some(record)
      ensures r.Ok? ==> Admitted(disk, domain, RollbackChange(record))
      ensures r.Ok? <==> RollbackPasses(disk, domain, record, compatible)
    {
      r := CheckTarget(domain, None);
      if r.Raised? { return; }
      if record.entry.mod !in compatible { return Raised(Rejected); }
      r := CheckDependencies(record.entry.mod, domain, compatible);
      if r.Raised? { return; }
      r := Verify(BackupDir(record.id), record.entry.files);
    }

    /** `install`, fresh or as an update. */
    method InstallModule(source: string, repository: string, mod: Module, tree: Tree, c: Circumstances,
                         ghost homes: Homes)
      returns (r: Outcome)
      requires Reachable(disk, whole)
      modifies this
      ensures Reachable(disk, whole)
      ensures Layered(old(disk).registry, homes) && Get(homes, (source, mod.id)) == Some(mod.domain) ==>
                Layered(disk.registry, homes)
      ensures Served(old(disk), disk, r, mod.domain, Replace(source, repository, mod, Archive(tree)),
                     InstallPasses(Ending(old(disk)), source, repository, mod, c.compatible), c, whole)
      ensures r.Ok? ==> disk.journal.None? && disk.registry != old(disk).registry
                        && Verified(disk, Target(mod.domain), tree)
      ensures disk.registry != old(disk).registry ==>
                && PutInPlace(old(disk).registry, disk.registry, mod.domain,
                              Owned(source, repository, mod, tree, c.id), c.id)
                && TreesMoved(Ending(old(disk)), Ending(disk), mod.domain, Some(tree), c.id)
    {
      r := Open(c.opening);
      if r.Raised? { return; }
      ghost var start := disk;
      var domain := mod.domain;
      var change := Replace(source, repository, mod, Archive(tree));
      r := AdmitInstall(source, repository, mod, change, c.compatible);
      if r.Raised? { return; }
      r := ChangeDomain(domain, c.id, change, c.host, c.budget, c.died, c.retry);
      Afterwards(start, disk, domain, c.id, change, whole, homes);
      CommitMeaning(start, domain, c.id, change);
    }

    /** `rollback`, to the previous version or to a removed module. */
    method RollBackModule(domain: string, c: Circumstances, ghost homes: Homes) returns (r: Outcome)
      requires Reachable(disk, whole)
      modifies this
      ensures Reachable(disk, whole)
      ensures Layered(old(disk).registry, homes) ==> Layered(disk.registry, homes)
      ensures var start := Ending(old(disk));
              var record := RollbackRecord(start.registry, domain);
              if record.Some? then
                Served(old(disk), disk, r, domain, RollbackChange(record.value),
                       RollbackPasses(start, domain, record.value, c.compatible), c, whole)
              else r.Raised? && Ending(disk) == start
      ensures r.Ok? ==>
                && disk.journal.None? && disk.registry != old(disk).registry
                && disk.registry == RolledBack(old(disk).registry, domain, c.id)
                && Verified(disk, Target(domain), RollbackRecord(old(disk).registry, domain).value.entry.files)
      ensures disk.registry != old(disk).registry ==> exists record ::
                && OnRecord(old(disk).registry, domain, record)
                && PutInPlace(old(disk).registry, disk.registry, domain, record.entry.(transaction := c.id), c.id)
                && TreesMoved(Ending(old(disk)), Ending(disk), domain, Some(record.entry.files), c.id)
    {
      r := Open(c.opening);
      if r.Raised? { return; }
      ghost var start := disk;
      var record := RollbackRecord(registry, domain);
      if record.None? { return Raised(Rejected); }
      r := AdmitRollback(domain, record.value, c.compatible);
      if r.Raised? { return; }
      RecordAtHome(registry, domain, homes);
      var change := RollbackChange(record.value);
      r := ChangeDomain(domain, c.id, change, c.host, c.budget, c.died, c.retry);
      Afterwards(start, disk, domain, c.id, change, whole, homes);
      CommitMeaning(start, domain, c.id, change);
      assert OnRecord(start.registry, domain, record.value);
    }

    /** `remove`. */
    method RemoveModule(domain: string, confirmed: bool, entriesClear: bool, c: Circumstances, ghost homes: Homes)
      returns (r: Outcome)
      requires Reachable(disk, whole)
      modifies this
      ensures Reachable(disk, whole)
      ensures Layered(old(disk).registry, homes) ==> Layered(disk.registry, homes)
      ensures !confirmed ==> r.Raised? && disk == old(disk)
      ensures var start := Ending(old(disk));
              if domain in start.registry.installed then
                confirmed ==> Served(old(disk), disk, r, domain, Remove,
                                     RemovalPasses(start, domain, confirmed, entriesClear), c, whole)
              else r.Raised? && Ending(disk) == start
      ensures r.Ok? ==> disk.journal.None? && disk.registry != old(disk).registry
      ensures disk.registry != old(disk).registry ==>
                && TakenOut(old(disk).registry, disk.registry, domain, c.id)
                && TreesMoved(Ending(old(disk)), Ending(disk), domain, None, c.id)
    {
      if !confirmed { return Raised(Rejected); }
      r := Open(c.opening);
      if r.Raised? { return; }
      ghost var start := disk;
      if domain !in registry.installed { return Raised(Rejected); }
      r := CheckTarget(domain, None);
      if r.Raised? { return; }
      if !entriesClear { return Raised(NativeEntriesRemain); }
      if RemovalConflict(registry, domain) { return Raised(Rejected); }
      r := ChangeDomain(domain, c.id, Remove, c.host, c.budget, c.died, c.retry);
      Afterwards(start, disk, domain, c.id, Remove, whole, homes);
      CommitMeaning(start, domain, c.id, Remove);
    }

    /** Any run of requests, each interrupted anywhere or not at all: every reachable disk keeps
        dependency closure, the backup chain and the ownership of trees. */
    method Serve(requests: seq<(Request, Circumstances)>, ghost homes: Homes)
      requires Reachable(disk, whole)
      modifies this
      ensures Reachable(disk, whole)
      ensures Layered(old(disk).registry, homes)
              && (forall q | q in requests && q.0.Install? ::
                   Get(homes, (q.0.source, q.0.mod.id)) == Some(q.0.mod.domain))
              ==> Layered(disk.registry, homes)
    {
      for i := 0 to |requests|
        invariant Reachable(disk, whole)
        invariant Layered(old(disk).registry, homes)
                  && (forall q | q in requests && q.0.Install? ::
                       Get(homes, (q.0.source, q.0.mod.id)) == Some(q.0.mod.domain))
                  ==> Layered(disk.registry, homes)
      {
        assert requests[i] in requests;
        var c := requests[i].1;
        match requests[i].0 {
          case Install(source, repository, mod, tree) => var _ := InstallModule(source, repository, mod, tree, c,
            homes);
          case Rollback(domain) => var _ := RollBackModule(domain, c, homes);
          case Uninstall(domain, confirmed, entriesClear) => var _ := RemoveModule(domain, confirmed, entriesClear, c,
            homes);
        }
      }
    }
  }
}
