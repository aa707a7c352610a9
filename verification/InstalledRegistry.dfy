/**
  The registry document of the integration manager: what is installed, where its previous
  version is backed up, and the dependency rules every change must pass.
 */
module InstalledRegistry {
  import opened Wrappers

  /** What `hash_tree` sees: relative path to digest, or to "directory". */
  type Tree = map<string, string>

  /** An exact-version dependency; also the identity an installed entry provides. */
  datatype Identity = Identity(source: string, id: string, version: string)

  datatype Module = Module(id: string, version: string, domain: string, dependencies: seq<Identity>)

  /** A registry entry without its `previous` record. */
  datatype Owned = Owned(source: string, repository: string, mod: Module, files: Tree, transaction: nat) {
    /** The identity that other modules' dependencies can name. */
    function Provides(): Identity {
      Identity(source, mod.id, mod.version)
    }
  }

  datatype Backup = Backup(id: nat, entry: Owned)

  datatype Entry = Entry(owned: Owned, previous: Option<Backup>)

  datatype Registry = Registry(installed: map<string, Entry>, removed: map<string, Backup>)

  // ----- The three registry updates a transaction can commit -----

  /** The backup record that a transaction `id` makes of the current entry. */
  function BackupOf(r: Registry, domain: string, id: nat): Option<Backup> {
    if domain in r.installed then Some(Backup(id, r.installed[domain].owned)) else None
  }

  /** Install, update and rollback all put `owned` at `domain` and keep the old entry as `previous`. */
  function WithInstalled(r: Registry, domain: string, owned: Owned, id: nat): Registry {
    Registry(r.installed[domain := Entry(owned, BackupOf(r, domain, id))], r.removed - {domain})
  }

  function WithRemoved(r: Registry, domain: string, id: nat): Registry
    requires domain in r.installed
  {
    Registry(r.installed - {domain}, r.removed[domain := Backup(id, r.installed[domain].owned)])
  }

  /** The record that a rollback of `domain` would reinstate. */
  function RollbackRecord(r: Registry, domain: string): Option<Backup> {
    if domain in r.installed then r.installed[domain].previous else Get(r.removed, domain)
  }

  // ----- Dependency rules -----

  predicate Needs(o: Owned, want: Identity) {
    want in o.mod.dependencies
  }

  /** `d` has a dependency that the entry at `e` provides. */
  predicate Edge(r: Registry, d: string, e: string) {
    && d in r.installed
    && e in r.installed
    && Needs(r.installed[d].owned, r.installed[e].owned.Provides())
  }

  function Providers(r: Registry, want: Identity): set<string> {
    set e | e in r.installed && r.installed[e].owned.Provides() == want
  }

  /** Every dependency of `mod` has exactly one provider, and it is not the domain being replaced. */
  predicate DependenciesMet(r: Registry, mod: Module, replacing: string) {
    forall want | want in mod.dependencies ::
      |Providers(r, want)| == 1 && replacing !in Providers(r, want)
  }

  /** Some other installed module pins a different version of the entry being replaced. */
  predicate DependentConflict(r: Registry, mod: Module, replacing: string) {
    && replacing in r.installed
    && exists d, want |
         d in r.installed && d != replacing && want in r.installed[d].owned.mod.dependencies ::
         && want.id == mod.id
         && want.version != mod.version
         && want.source == r.installed[replacing].owned.source
  }

  /** Some installed module, the removed one included, depends on any version of `domain`'s module. */
  predicate RemovalConflict(r: Registry, domain: string)
    requires domain in r.installed
  {
    exists d, want | d in r.installed && want in r.installed[d].owned.mod.dependencies ::
      && want.source == r.installed[domain].owned.source
      && want.id == r.installed[domain].owned.mod.id
  }

  // ----- Invariants of every reachable registry -----

  /** Each installed module's exact-version dependencies are installed. */
  predicate Closed(r: Registry) {
    forall d, want | d in r.installed && want in r.installed[d].owned.mod.dependencies ::
      Providers(r, want) != {}
  }

  /** A `previous` record is another version of the very same module of the same source and repository. */
  predicate Chained(r: Registry) {
    && (forall d | d in r.installed ::
          && r.installed[d].owned.mod.domain == d
          && (r.installed[d].previous.Some? ==>
                SuccessorOf(r.installed[d].previous.value.entry, r.installed[d].owned)))
    && (forall d | d in r.removed :: r.removed[d].entry.mod.domain == d)
    && r.installed.Keys !! r.removed.Keys
  }

  predicate SuccessorOf(former: Owned, next: Owned) {
    && next.source == former.source
    && next.repository == former.repository
    && next.mod.id == former.mod.id
    && next.mod.domain == former.mod.domain
    && next.mod.version != former.mod.version
  }

  /** What `install` checked of a module replacing the entry at `domain`, if there is one. */
  predicate Replaces(r: Registry, domain: string, owned: Owned) {
    && owned.mod.domain == domain
    && (domain in r.installed ==> SuccessorOf(r.installed[domain].owned, owned))
  }

  lemma UniqueProvider(r: Registry, want: Identity, replacing: string) returns (e: string)
    requires |Providers(r, want)| == 1 && replacing !in Providers(r, want)
    ensures Providers(r, want) == {e} && e != replacing
  {
    e :| e in Providers(r, want);
    assert |Providers(r, want) - {e}| == 0;
    assert Providers(r, want) == {e};
  }

  /** Nothing else depends on an entry whose replacement the dependency check lets through. */
  lemma ReplacedHasNoDependents(r: Registry, domain: string, owned: Owned, d: string)
    requires Closed(r) && Replaces(r, domain, owned)
    requires !DependentConflict(r, owned.mod, domain)
    ensures d != domain ==> !Edge(r, d, domain)
  {
    if d != domain && d in r.installed && domain in r.installed {
      var want := r.installed[domain].owned.Provides();
      assert Edge(r, d, domain) <==> want in r.installed[d].owned.mod.dependencies;
      assert want.id == owned.mod.id && want.version != owned.mod.version;
    }
  }

  /** An entry that something else depends on can be neither updated, rolled back nor removed. */
  lemma DependedOnIsPinned(r: Registry, domain: string, d: string, owned: Owned)
    requires Edge(r, d, domain)
    ensures RemovalConflict(r, domain)
    ensures d != domain && Replaces(r, domain, owned) ==> DependentConflict(r, owned.mod, domain)
  {
    var want := r.installed[domain].owned.Provides();
    assert want in r.installed[d].owned.mod.dependencies;
  }

  lemma InstallKeepsClosed(r: Registry, domain: string, owned: Owned, id: nat)
    requires Closed(r) && Chained(r) && Replaces(r, domain, owned)
    requires DependenciesMet(r, owned.mod, domain) && !DependentConflict(r, owned.mod, domain)
    ensures Closed(WithInstalled(r, domain, owned, id))
    ensures Chained(WithInstalled(r, domain, owned, id))
  {
    var after := WithInstalled(r, domain, owned, id);
    forall d, want | d in after.installed && want in after.installed[d].owned.mod.dependencies
      ensures Providers(after, want) != {}
    {
      var e: string;
      if d == domain {
        e := UniqueProvider(r, want, domain);
      } else {
        e :| e in Providers(r, want);
        if e == domain {
          ReplacedHasNoDependents(r, domain, owned, d);
          assert Edge(r, d, domain);
        }
      }
      assert e in Providers(after, want);
    }
  }

  lemma RemovalKeepsClosed(r: Registry, domain: string, id: nat)
    requires Closed(r) && Chained(r) && domain in r.installed && !RemovalConflict(r, domain)
    ensures Closed(WithRemoved(r, domain, id)) && Chained(WithRemoved(r, domain, id))
  {
    var after := WithRemoved(r, domain, id);
    var conflict := RemovalConflict(r, domain);
    forall d, want | d in after.installed && want in after.installed[d].owned.mod.dependencies
      ensures Providers(after, want) != {}
    {
      var e :| e in Providers(r, want);
      assert e == domain ==> conflict;
      assert e in Providers(after, want);
    }
  }

  /** While every module sits at its home, an update or rollback is blocked exactly when another entry
      depends on the one it would replace. */
  lemma UpdateBlockedIff(r: Registry, domain: string, owned: Owned, homes: Homes)
    requires Closed(r) && Chained(r) && Replaces(r, domain, owned) && domain in r.installed
    requires forall d | d in r.installed :: AtHome(r.installed[d].owned, homes)
    ensures DependentConflict(r, owned.mod, domain) <==> exists d :: d != domain && Edge(r, d, domain)
  {
    if DependentConflict(r, owned.mod, domain) {
      var d, want :| d in r.installed && d != domain && want in r.installed[d].owned.mod.dependencies
                     && want.id == owned.mod.id && want.version != owned.mod.version
                     && want.source == r.installed[domain].owned.source;
      ProviderIsHome(r, domain, d, want, homes);
    }
    if d :| d != domain && Edge(r, d, domain) { DependedOnIsPinned(r, domain, d, owned); }
  }

  /** Likewise a removal, which its own dependency would block too. */
  lemma RemovalBlockedIff(r: Registry, domain: string, homes: Homes)
    requires Closed(r) && Chained(r) && domain in r.installed
    requires forall d | d in r.installed :: AtHome(r.installed[d].owned, homes)
    ensures RemovalConflict(r, domain) <==> exists d :: Edge(r, d, domain)
  {
    if RemovalConflict(r, domain) {
      var d, want :| d in r.installed && want in r.installed[d].owned.mod.dependencies
                     && want.source == r.installed[domain].owned.source && want.id == r.installed[domain].owned.mod.id;
      ProviderIsHome(r, domain, d, want, homes);
    }
    if d :| Edge(r, d, domain) {
      assert r.installed[domain].owned.Provides() in r.installed[d].owned.mod.dependencies;
    }
  }

  lemma ProviderIsHome(r: Registry, domain: string, d: string, want: Identity, homes: Homes)
    requires Closed(r) && Chained(r) && domain in r.installed
    requires forall e | e in r.installed :: AtHome(r.installed[e].owned, homes)
    requires d in r.installed && want in r.installed[d].owned.mod.dependencies
    requires want.source == r.installed[domain].owned.source && want.id == r.installed[domain].owned.mod.id
    ensures Edge(r, d, domain)
  {
    var e :| e in Providers(r, want);
    assert AtHome(r.installed[e].owned, homes) && AtHome(r.installed[domain].owned, homes);
    assert e == domain;
  }

  // ----- What a commit does to the document -----

  /** Every other entry and every other removal record is as it was. */
  ghost predicate OthersKept(before: Registry, after: Registry, domain: string) {
    forall d | d != domain ::
      && Get(after.installed, d) == Get(before.installed, d)
      && Get(after.removed, d) == Get(before.removed, d)
  }

  /** `owned` is installed at `domain`, remembers what was there before, and uses a removal record up. */
  ghost predicate PutInPlace(before: Registry, after: Registry, domain: string, owned: Owned, id: nat) {
    && OthersKept(before, after, domain)
    && domain in after.installed && after.installed[domain].owned == owned
    && (domain in before.installed ==>
          after.installed[domain].previous == Some(Backup(id, before.installed[domain].owned)))
    && (domain !in before.installed ==> after.installed[domain].previous == None)
    && domain !in after.removed
  }

  /** The entry at `domain` is gone and its removal is on record. */
  ghost predicate TakenOut(before: Registry, after: Registry, domain: string, id: nat) {
    && OthersKept(before, after, domain)
    && domain in before.installed && domain !in after.installed
    && domain in after.removed && after.removed[domain] == Backup(id, before.installed[domain].owned)
  }

  /** The record that a rollback of `domain` finds. */
  predicate OnRecord(r: Registry, domain: string, record: Backup) {
    && (domain in r.installed ==> r.installed[domain].previous == Some(record))
    && (domain !in r.installed ==> domain in r.removed && r.removed[domain] == record)
  }

  // ----- Rollback undoes -----

  /** A rollback reinstates the record's own module, files and source under a new transaction. */
  function RolledBack(r: Registry, domain: string, id: nat): Registry
    requires RollbackRecord(r, domain).Some?
  {
    WithInstalled(r, domain, RollbackRecord(r, domain).value.entry.(transaction := id), id)
  }

  predicate SameVersion(a: Owned, b: Owned) {
    a.(transaction := 0) == b.(transaction := 0)
  }

  /** Rollback after an update restores the earlier module, source and files, and a second
      rollback returns to the updated version. */
  lemma RollbackUndoesUpdate(r: Registry, domain: string, owned: Owned, id: nat, id1: nat, id2: nat)
    requires domain in r.installed
    ensures var updated := WithInstalled(r, domain, owned, id);
            && RollbackRecord(updated, domain) == Some(Backup(id, r.installed[domain].owned))
            && SameVersion(RolledBack(updated, domain, id1).installed[domain].owned, r.installed[domain].owned)
            && RollbackRecord(RolledBack(updated, domain, id1), domain) == Some(Backup(id1, owned))
            && SameVersion(RolledBack(RolledBack(updated, domain, id1), domain, id2).installed[domain].owned, owned)
  {
  }

  /** Rollback after a removal reinstates the removed entry, leaves every other one alone and
      uses up the removal record. */
  lemma RollbackUndoesRemoval(r: Registry, domain: string, id: nat, id1: nat)
    requires domain in r.installed && Chained(r)
    ensures var back := RolledBack(WithRemoved(r, domain, id), domain, id1);
            && back.installed.Keys == r.installed.Keys
            && SameVersion(back.installed[domain].owned, r.installed[domain].owned)
            && (forall d | d in r.installed && d != domain :: back.installed[d] == r.installed[d])
            && back.removed == r.removed
  {
    var removed := WithRemoved(r, domain, id);
    var back := RolledBack(removed, domain, id1);
    assert back.installed == removed.installed[domain := Entry(r.installed[domain].owned.(transaction := id1), None)];
    assert back.removed == r.removed;
  }

  // ----- The dependency graph stays acyclic -----

  ghost predicate Ranked(r: Registry, rank: map<string, nat>) {
    && r.installed.Keys <= rank.Keys
    && forall d, e {:trigger Edge(r, d, e)} :: Edge(r, d, e) ==> rank[e] < rank[d]
  }

  ghost predicate Acyclic(r: Registry) {
    exists rank: map<string, nat> :: Ranked(r, rank)
  }

  /** Ranking is what rules cycles out: no walk along dependencies returns to its start. */
  lemma {:induction false} AcyclicHasNoCycle(r: Registry, rank: map<string, nat>, walk: seq<string>)
    requires Ranked(r, rank) && |walk| >= 2
    requires forall i | 0 <= i < |walk| - 1 :: Edge(r, walk[i], walk[i + 1])
    ensures walk[0] in rank && walk[|walk| - 1] in rank && rank[walk[|walk| - 1]] < rank[walk[0]]
    ensures walk[0] != walk[|walk| - 1]
  {
    assert Edge(r, walk[0], walk[1]);
    if |walk| > 2 {
      AcyclicHasNoCycle(r, rank, walk[1..]);
    }
  }

  /** A set of installed modules, other than `domain`, that the new module may stand on: it holds
      every provider of its dependencies, is closed under dependency, and nothing in it depends
      on the identity about to be installed. */
  predicate Support(r: Registry, domain: string, owned: Owned, s: set<string>) {
    && s <= r.installed.Keys - {domain}
    && !Needs(owned, owned.Provides())
    && (forall want | want in owned.mod.dependencies :: Providers(r, want) - {domain} <= s)
    && (forall d, e | d in s && e in r.installed && Edge(r, d, e) :: e in s)
    && (forall d | d in s :: !Needs(r.installed[d].owned, owned.Provides()))
  }

  lemma {:induction false} RankBound(rank: map<string, nat>) returns (bound: nat)
    ensures forall d | d in rank :: rank[d] <= bound
    decreases |rank|
  {
    if rank == map[] {
      bound := 0;
    } else {
      var d :| d in rank;
      var rest := rank - {d};
      assert |rest| < |rank|;
      bound := RankBound(rest);
      bound := if bound < rank[d] then rank[d] else bound;
      forall e | e in rank ensures rank[e] <= bound {
        assert e != d ==> e in rest;
      }
    }
  }

  lemma EdgesAfterInstall(r: Registry, domain: string, owned: Owned, id: nat, d: string, e: string)
    requires Edge(WithInstalled(r, domain, owned, id), d, e)
    ensures d != domain && e != domain ==> Edge(r, d, e)
    ensures d != domain && e == domain ==> d in r.installed && Needs(r.installed[d].owned, owned.Provides())
    ensures d == domain && e != domain ==>
              exists want | want in owned.mod.dependencies :: e in Providers(r, want) - {domain}
    ensures d == domain && e == domain ==> Needs(owned, owned.Provides())
  {
    if d == domain && e != domain {
      var want := r.installed[e].owned.Provides();
      assert want in owned.mod.dependencies && e in Providers(r, want) - {domain};
    }
  }

  lemma SupportRanksInstall(r: Registry, domain: string, owned: Owned, id: nat, s: set<string>)
    requires Acyclic(r) && Support(r, domain, owned, s)
    ensures Acyclic(WithInstalled(r, domain, owned, id))
  {
    var after := WithInstalled(r, domain, owned, id);
    var rank: map<string, nat> :| Ranked(r, rank);
    var top := RankBound(rank);
    var rank': map<string, nat> := map d | d in rank.Keys + {domain} ::
      if d == domain then top + 1 else if d in s then rank[d] else rank[d] + top + 2;
    forall d, e | Edge(after, d, e)
      ensures rank'[e] < rank'[d]
    {
      EdgesAfterInstall(r, domain, owned, id, d, e);
    }
    assert Ranked(after, rank');
  }

  lemma AcyclicInstallHasSupport(r: Registry, domain: string, owned: Owned, id: nat) returns (s: set<string>)
    requires forall d | d != domain :: !Edge(r, d, domain)
    requires Acyclic(WithInstalled(r, domain, owned, id))
    ensures Support(r, domain, owned, s)
  {
    var after := WithInstalled(r, domain, owned, id);
    var rank: map<string, nat> :| Ranked(after, rank);
    s := set d | d in r.installed && d != domain && rank[d] < rank[domain];
    assert Needs(owned, owned.Provides()) ==> Edge(after, domain, domain);
    forall want, e | want in owned.mod.dependencies && e in Providers(r, want) - {domain}
      ensures e in s
    {
      assert Edge(after, domain, e);
    }
    forall d, e | d in s && e in r.installed && Edge(r, d, e)
      ensures e in s
    {
      assert e != domain;
      assert Edge(after, d, e);
    }
    forall d | d in s
      ensures !Needs(r.installed[d].owned, owned.Provides())
    {
      assert Needs(r.installed[d].owned, owned.Provides()) ==> Edge(after, d, domain);
    }
  }

  /** An admitted install or update keeps the graph acyclic exactly when the new module has a
      support: what its dependencies reach never depends on the identity being installed. */
  lemma InstallKeepsAcyclicIff(r: Registry, domain: string, owned: Owned, id: nat)
    requires Acyclic(r) && Closed(r) && Replaces(r, domain, owned)
    requires !DependentConflict(r, owned.mod, domain)
    ensures Acyclic(WithInstalled(r, domain, owned, id)) <==> exists s :: Support(r, domain, owned, s)
  {
    forall d | d != domain ensures !Edge(r, d, domain) {
      ReplacedHasNoDependents(r, domain, owned, d);
    }
    if Acyclic(WithInstalled(r, domain, owned, id)) {
      var s := AcyclicInstallHasSupport(r, domain, owned, id);
    }
    if s :| Support(r, domain, owned, s) {
      SupportRanksInstall(r, domain, owned, id, s);
    }
  }

  /** While a (source, id) pair keeps one integration domain, every admitted install has a support. */
  lemma OneDomainKeepsAcyclic(r: Registry, domain: string, owned: Owned, id: nat)
    requires Acyclic(r) && Closed(r) && Replaces(r, domain, owned)
    requires DependenciesMet(r, owned.mod, domain) && !DependentConflict(r, owned.mod, domain)
    requires forall e | e in r.installed && r.installed[e].owned.source == owned.source
                        && r.installed[e].owned.mod.id == owned.mod.id :: e == domain
    ensures Acyclic(WithInstalled(r, domain, owned, id))
  {
    var s := r.installed.Keys - {domain};
    forall d | d in s ensures !Needs(r.installed[d].owned, owned.Provides()) {
      assert Needs(r.installed[d].owned, owned.Provides()) ==> Providers(r, owned.Provides()) != {};
      assert forall e | e in Providers(r, owned.Provides()) :: e == domain;
    }
    assert Needs(owned, owned.Provides()) ==> |Providers(r, owned.Provides())| == 1;
    assert Providers(r, owned.Provides()) <= {domain};
    forall d, e | d in s && e in r.installed && Edge(r, d, e) ensures e in s {
      ReplacedHasNoDependents(r, domain, owned, d);
    }
    SupportRanksInstall(r, domain, owned, id, s);
  }

  /** Where each (source, id) pair lives, if catalog refreshes never move it. */
  type Homes = map<(string, string), string>

  predicate AtHome(o: Owned, homes: Homes) {
    Get(homes, (o.source, o.mod.id)) == Some(o.mod.domain)
  }

  /** The dependency graph is acyclic and every recorded module sits at its home. */
  ghost predicate Layered(r: Registry, homes: Homes) {
    && Acyclic(r)
    && (forall d | d in r.installed :: AtHome(r.installed[d].owned, homes))
    && (forall d | d in r.removed :: AtHome(r.removed[d].entry, homes))
  }

  lemma InstallKeepsLayered(r: Registry, domain: string, owned: Owned, id: nat, homes: Homes)
    requires Layered(r, homes) && Closed(r) && Chained(r) && Replaces(r, domain, owned)
    requires DependenciesMet(r, owned.mod, domain) && !DependentConflict(r, owned.mod, domain)
    requires AtHome(owned, homes)
    ensures Layered(WithInstalled(r, domain, owned, id), homes)
  {
    OneDomainKeepsAcyclic(r, domain, owned, id);
  }

  lemma RemovalKeepsAcyclic(r: Registry, domain: string, id: nat)
    requires Acyclic(r) && domain in r.installed
    ensures Acyclic(WithRemoved(r, domain, id))
  {
    var rank: map<string, nat> :| Ranked(r, rank);
    forall d, e | Edge(WithRemoved(r, domain, id), d, e) ensures rank[e] < rank[d] {
      assert Edge(r, d, e);
    }
    assert Ranked(WithRemoved(r, domain, id), rank);
  }

  lemma RecordAtHome(r: Registry, domain: string, homes: Homes)
    requires Chained(r) && RollbackRecord(r, domain).Some?
    ensures Layered(r, homes) ==>
              Get(homes,
                (RollbackRecord(r, domain).value.entry.source, RollbackRecord(r, domain).value.entry.mod.id)) ==
                  Some(domain)
  {
    assert domain in r.installed ==> SuccessorOf(r.installed[domain].previous.value.entry, r.installed[domain].owned);
  }

  lemma RemovalKeepsLayered(r: Registry, domain: string, id: nat, homes: Homes)
    requires Layered(r, homes) && domain in r.installed
    ensures Layered(WithRemoved(r, domain, id), homes)
  {
    RemovalKeepsAcyclic(r, domain, id);
  }

  /** Across catalog refreshes the code does not enforce one domain per (source, id): a module that
      moves to a second domain while an old copy is still depended on closes a cycle, although
      every check of the install passes. */
  lemma MovedDomainMakesCycle() returns (r: Registry, owned: Owned)
    ensures Acyclic(r) && Closed(r) && Chained(r)
    ensures Replaces(r, "y", owned)
    ensures DependenciesMet(r, owned.mod, "y") && !DependentConflict(r, owned.mod, "y")
    ensures !Acyclic(WithInstalled(r, "y", owned, 3))
  {
    var a := Identity("s", "a", "1");
    var b := Identity("s", "b", "1");
    var first := Owned("s", "r", Module("a", "1", "x", []), map[], 1);
    var second := Owned("s", "r", Module("b", "1", "z", [a]), map[], 2);
    r := Registry(map["x" := Entry(first, None), "z" := Entry(second, None)], map[]);
    owned := Owned("s", "r", Module("a", "1", "y", [b]), map[], 3);
    assert first.Provides() == a && second.Provides() == b && owned.Provides() == a;
    assert "x" in Providers(r, a);
    assert Providers(r, b) == {"z"};
    assert Ranked(r, map["x" := 0, "z" := 1]);
    var after := WithInstalled(r, "y", owned, 3);
    assert Edge(after, "y", "z") && Edge(after, "z", "y");
    if rank: map<string, nat> :| Ranked(after, rank) {
      AcyclicHasNoCycle(after, rank, ["y", "z", "y"]);
    }
  }
}
