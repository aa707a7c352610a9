/**
  What the manager keeps on disk, and every disk state in which an interrupted transaction can
  leave it. Directories are maps from relative path to digest; the installed components, the
  staging and holding directories of a transaction and the backups are places that may hold one.
 */
module TransactionDisk {
  import opened Wrappers
  import opened InstalledRegistry
  import opened Limits

  datatype Place = Target(domain: string) | Stage(id: nat) | Hold(id: nat) | BackupDir(id: nat)

  datatype Phase = Prepared | Staged | OldMoved | NewMoved | Committed

  datatype Transaction = Transaction(id: nat, domain: string, phase: Phase, before: Registry, after: Registry) {
    function OldEntry(): Option<Entry> { Get(before.installed, domain) }
    function NewEntry(): Option<Entry> { Get(after.installed, domain) }
  }

  datatype Disk = Disk(journal: Option<Transaction>, registry: Registry, trees: map<Place, Tree>)

  /** `hash_tree` refuses any tree with more entries, files and directories counted alike. */
  predicate Hashable(t: Tree) { |t| <= MAX_FILES }

  /** `verify_tree` passes. */
  predicate Verified(d: Disk, p: Place, files: Tree) {
    p in d.trees && Hashable(d.trees[p]) && d.trees[p] == files
  }

  predicate Submap(t: Tree, files: Tree) {
    forall k | k in t :: k in files && t[k] == files[k]
  }

  /** A tree whose removal may have stopped half way; with whole removals it is still complete. */
  predicate Part(t: Tree, files: Tree, whole: bool) {
    Submap(t, files) && (whole ==> t == files)
  }

  /** The place holds exactly the files of the entry, or nothing when there is no entry. */
  predicate HoldsEntry(d: Disk, p: Place, entry: Option<Entry>) {
    Get(d.trees, p) == if entry.Some? then Some(entry.value.owned.files) else None
  }

  // ----- Quiescent disks -----

  predicate BackedUp(d: Disk, backup: Backup) {
    Verified(d, BackupDir(backup.id), backup.entry.files)
  }

  /** No transaction is open; every owned tree and every backup matches its recorded files, and
      the registry satisfies the dependency and history invariants. */
  ghost predicate Consistent(d: Disk) {
    && d.journal.None?
    && Chained(d.registry)
    && Closed(d.registry)
    && Matching(d)
  }

  ghost predicate Matching(d: Disk) {
    && (forall p | p in d.trees :: !p.Stage? && !p.Hold?)
    && (forall m | m in d.registry.installed ::
          && Verified(d, Target(m), d.registry.installed[m].owned.files)
          && (d.registry.installed[m].previous.Some? ==> BackedUp(d, d.registry.installed[m].previous.value)))
    && (forall m | m in d.registry.removed :: BackedUp(d, d.registry.removed[m]))
  }

  // ----- Open transactions -----

  /** The registry file is the commit point. */
  predicate IsCommitted(d: Disk, t: Transaction) {
    d.registry == t.after && t.after != t.before
  }

  /** The quiescent disk that a completed recovery of the open transaction leaves. */
  function Settled(d: Disk, t: Transaction): Disk {
    var others := d.trees - {Stage(t.id), Hold(t.id)};
    if IsCommitted(d, t) then
      Disk(None, d.registry, others)
    else if t.OldEntry().Some? then
      Disk(None, d.registry, others[Target(t.domain) := t.OldEntry().value.owned.files])
    else
      Disk(None, d.registry, others - {Target(t.domain)})
  }

  predicate RecordedTreesHashable(t: Transaction) {
    && (t.OldEntry().Some? ==> Hashable(t.OldEntry().value.owned.files))
    && (t.NewEntry().Some? ==> Hashable(t.NewEntry().value.owned.files))
  }

  /** Before the commit: the old tree is complete at the target or on hold (or there never was
      one), and anything else at the target is a piece of the new tree. */
  predicate UncommittedPositions(d: Disk, t: Transaction, whole: bool) {
    var target, hold := Target(t.domain), Hold(t.id);
    && d.registry == t.before
    && if hold in d.trees then
         && t.OldEntry().Some?
         && HoldsEntry(d, hold, t.OldEntry())
         && (target in d.trees ==>
               && t.NewEntry().Some?
               && t.NewEntry() != t.OldEntry()
               && Part(d.trees[target], t.NewEntry().value.owned.files, whole))
       else if t.OldEntry().Some? then
         HoldsEntry(d, target, t.OldEntry())
       else
         target in d.trees ==>
           && t.NewEntry().Some?
           && Part(d.trees[target], t.NewEntry().value.owned.files, whole)
  }

  /** After the commit: the new tree is complete at the target, and what is still on hold is a
      piece of the old one. */
  predicate CommittedPositions(d: Disk, t: Transaction, whole: bool) {
    && HoldsEntry(d, Target(t.domain), t.NewEntry())
    && (Hold(t.id) in d.trees ==>
          && t.OldEntry().Some?
          && Part(d.trees[Hold(t.id)], t.OldEntry().value.owned.files, whole))
  }

  /** Every disk state between the first journal write and its unlinking. */
  predicate InFlight(d: Disk, t: Transaction, whole: bool) {
    && d.journal == Some(t)
    && RecordedTreesHashable(t)
    && if IsCommitted(d, t) then CommittedPositions(d, t, whole) else UncommittedPositions(d, t, whole)
  }

  /** The tree that recovery has to delete, apart from the stage, and the record it must match. */
  function Doomed(d: Disk, t: Transaction): Option<(Place, Option<Entry>)> {
    if IsCommitted(d, t) then
      if Hold(t.id) in d.trees then Some((Hold(t.id), t.OldEntry())) else None
    else if Target(t.domain) in d.trees && (Hold(t.id) in d.trees || t.OldEntry().None?) then
      Some((Target(t.domain), t.NewEntry()))
    else
      None
  }

  predicate StageFits(d: Disk, t: Transaction) {
    Stage(t.id) in d.trees ==> Hashable(d.trees[Stage(t.id)])
  }

  predicate DoomedMatches(d: Disk, t: Transaction) {
    Doomed(d, t).Some? ==> HoldsEntry(d, Doomed(d, t).value.0, Doomed(d, t).value.1)
  }

  predicate Recoverable(d: Disk, t: Transaction) {
    StageFits(d, t) && DoomedMatches(d, t)
  }

  /** With whole removals only an over-full stage can stop recovery. */
  lemma WholeRemovalsRecover(d: Disk, t: Transaction)
    requires InFlight(d, t, true)
    ensures Recoverable(d, t) <==> StageFits(d, t)
  {
  }

  /** Nothing is lost however a removal is interrupted: an uncommitted transaction still has the
      complete old tree at the target or on hold, a committed one the complete new tree in place,
      and what recovery would restore is exactly that tree. */
  lemma NothingLost(d: Disk, t: Transaction, whole: bool)
    requires InFlight(d, t, whole)
    ensures !IsCommitted(d, t) && t.OldEntry().Some? ==>
              HoldsEntry(d, Target(t.domain), t.OldEntry()) || HoldsEntry(d, Hold(t.id), t.OldEntry())
    ensures IsCommitted(d, t) ==> HoldsEntry(d, Target(t.domain), t.NewEntry())
    ensures HoldsEntry(Settled(d, t), Target(t.domain), Get(Settled(d, t).registry.installed, t.domain))
  {
  }

  /** `domain` holds `files` now (or nothing), its old tree is the new backup, every other place is as
      it was. */
  ghost predicate TreesMoved(before: Disk, after: Disk, domain: string, files: Option<Tree>, id: nat) {
    && Get(after.trees, Target(domain)) == files
    && (domain in before.registry.installed ==>
          Get(after.trees, BackupDir(id)) == Some(before.registry.installed[domain].owned.files))
    && (domain !in before.registry.installed ==> Get(after.trees, BackupDir(id)) == Get(before.trees, BackupDir(id)))
    && forall p | p != Target(domain) && p != BackupDir(id) :: Get(after.trees, p) == Get(before.trees, p)
  }

  // ----- The pair of disks that a transaction chooses between -----

  datatype Payload = Archive(tree: Tree) | Saved(backup: nat, files: Tree) {
    /** The files the stage holds once it is complete. */
    function Files(): Tree { if Archive? then tree else files }
  }

  datatype Change = Replace(source: string, repository: string, mod: Module, payload: Payload) | Remove

  function NewOwned(id: nat, change: Change): Owned
    requires change.Replace?
  {
    Owned(change.source, change.repository, change.mod, change.payload.Files(), id)
  }

  function PlannedRegistry(r: Registry, domain: string, id: nat, change: Change): Registry
    requires change.Remove? ==> domain in r.installed
  {
    if change.Remove? then WithRemoved(r, domain, id) else WithInstalled(r, domain, NewOwned(id, change), id)
  }

  function WithBackup(d: Disk, domain: string, id: nat): map<Place, Tree> {
    if domain in d.registry.installed
    then d.trees[BackupDir(id) := d.registry.installed[domain].owned.files]
    else d.trees
  }

  /** The after disk: registry committed, target replaced or removed, the old tree backed up. */
  function AfterDisk(d: Disk, domain: string, id: nat, change: Change): Disk
    requires change.Remove? ==> domain in d.registry.installed
  {
    var trees := WithBackup(d, domain, id);
    Disk(None, PlannedRegistry(d.registry, domain, id, change),
         if change.Remove? then trees - {Target(domain)}
         else trees[Target(domain) := change.payload.Files()])
  }

  /** What a commit of a replacement or a removal means, place by place and record by record. */
  lemma CommitMeaning(d: Disk, domain: string, id: nat, change: Change)
    requires change.Remove? ==> domain in d.registry.installed
    ensures var d' := AfterDisk(d, domain, id, change);
            && d'.journal.None?
            && (change.Remove? ==>
                  TakenOut(d.registry, d'.registry, domain, id) && TreesMoved(d, d', domain, None, id))
            && (change.Replace? ==>
                  var files := change.payload.Files();
                  && PutInPlace(d.registry, d'.registry, domain,
                                Owned(change.source, change.repository, change.mod, files, id), id)
                  && TreesMoved(d, d', domain, Some(files), id))
  {
  }

  /** The before disk, up to the orphan backup directory that the code never cleans up. */
  predicate SameBut(d: Disk, d': Disk, id: nat) {
    && d'.journal.None?
    && d'.registry == d.registry
    && d'.trees - {BackupDir(id)} == d.trees - {BackupDir(id)}
    && (BackupDir(id) in d.trees ==> d'.trees == d.trees)
  }

  predicate BeforeOrAfter(d: Disk, d': Disk, domain: string, id: nat, change: Change)
    requires change.Remove? ==> domain in d.registry.installed
  {
    SameBut(d, d', id) || (d' == AfterDisk(d, domain, id, change) && Committable(d, domain, id, change))
  }

  /** What the change engine itself has checked before it can commit. */
  predicate Committable(d: Disk, domain: string, id: nat, change: Change) {
    && (domain in d.registry.installed ==> BackupDir(id) !in d.trees)
    && (change.Replace? ==> Hashable(change.payload.Files()))
  }

  /** Whatever the manager does not own at the component directory stays as it is, and so do
      all earlier backups. */
  lemma OthersUntouched(d: Disk, d': Disk, domain: string, id: nat, change: Change, p: Place)
    requires change.Remove? ==> domain in d.registry.installed
    requires BeforeOrAfter(d, d', domain, id, change)
    requires p != Target(domain) && p != BackupDir(id)
    ensures Get(d'.trees, p) == Get(d.trees, p)
  {
    if SameBut(d, d', id) {
      assert p in d.trees - {BackupDir(id)} <==> p in d.trees;
      assert p in d'.trees - {BackupDir(id)} <==> p in d'.trees;
      assert Get(d'.trees - {BackupDir(id)}, p) == Get(d.trees - {BackupDir(id)}, p);
    }
  }

  /** An unchanged disk with at most one more backup directory is still consistent. */
  lemma SameButConsistent(d: Disk, d': Disk, id: nat)
    requires Consistent(d) && SameBut(d, d', id)
    ensures Consistent(d')
  {
    forall p | p in d.trees ensures p in d'.trees && d'.trees[p] == d.trees[p] {
      if p != BackupDir(id) {
        assert p in d.trees - {BackupDir(id)} && (d.trees - {BackupDir(id)})[p] == d.trees[p];
      }
    }
    forall p | p in d'.trees ensures !p.Stage? && !p.Hold? {
      if p != BackupDir(id) {
        assert p in d'.trees - {BackupDir(id)};
        assert p in d.trees;
      }
    }
  }

  /** The request passed the checks that `install`, `rollback` and `remove` make up front. */
  predicate Admitted(d: Disk, domain: string, change: Change) {
    var r := d.registry;
    match change
    case Remove =>
      domain in r.installed && !RemovalConflict(r, domain)
    case Replace(_, _, mod, _) =>
      && (domain !in r.installed ==> Target(domain) !in d.trees)
      && Replaces(r, domain, NewOwned(0, change))
      && DependenciesMet(r, mod, domain)
      && !DependentConflict(r, mod, domain)
  }

  lemma CommitKeepsRegistry(r: Registry, domain: string, id: nat, change: Change, d: Disk)
    requires r == d.registry && Chained(r) && Closed(r) && Admitted(d, domain, change)
    ensures Chained(PlannedRegistry(r, domain, id, change)) && Closed(PlannedRegistry(r, domain, id, change))
  {
    match change
    case Remove => RemovalKeepsClosed(r, domain, id);
    case Replace(_, _, mod, _) =>
      assert NewOwned(id, change) == NewOwned(0, change).(transaction := id);
      InstallKeepsClosed(r, domain, NewOwned(id, change), id);
  }

  lemma OldBackupsKept(d: Disk, domain: string, id: nat, change: Change, backup: Backup)
    requires change.Remove? ==> domain in d.registry.installed
    requires domain in d.registry.installed ==> BackupDir(id) !in d.trees
    requires BackedUp(d, backup)
    ensures BackedUp(AfterDisk(d, domain, id, change), backup)
  {
  }

  lemma AfterDiskMatching(d: Disk, domain: string, id: nat, change: Change)
    requires Matching(d) && Admitted(d, domain, change) && Committable(d, domain, id, change)
    ensures Matching(AfterDisk(d, domain, id, change))
  {
    var d' := AfterDisk(d, domain, id, change);
    var r, r' := d.registry, d'.registry;
    forall m | m in r'.installed
      ensures Verified(d', Target(m), r'.installed[m].owned.files)
      ensures r'.installed[m].previous.Some? ==> BackedUp(d', r'.installed[m].previous.value)
    {
      if m != domain {
        assert r'.installed[m] == r.installed[m];
        assert Verified(d, Target(m), r.installed[m].owned.files);
        if r.installed[m].previous.Some? {
          OldBackupsKept(d, domain, id, change, r.installed[m].previous.value);
        }
      } else {
        assert change.Replace? && r'.installed[m].owned.files == change.payload.Files();
      }
    }
    forall m | m in r'.removed ensures BackedUp(d', r'.removed[m]) {
      if m != domain {
        assert r'.removed[m] == r.removed[m];
        OldBackupsKept(d, domain, id, change, r.removed[m]);
      } else {
        assert change.Remove? && Verified(d, Target(m), r.installed[m].owned.files);
      }
    }
  }

  /** Committing an admitted change to a consistent disk gives a consistent disk. */
  lemma AfterDiskConsistent(d: Disk, domain: string, id: nat, change: Change)
    requires Consistent(d) && Admitted(d, domain, change) && Committable(d, domain, id, change)
    ensures Consistent(AfterDisk(d, domain, id, change))
  {
    CommitKeepsRegistry(d.registry, domain, id, change, d);
    AfterDiskMatching(d, domain, id, change);
  }
}
