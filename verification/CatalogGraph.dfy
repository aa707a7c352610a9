/**
  The catalog's dependency graph over module versions and its cycle check, which may take the next
  ready module in any order.
 */
module CatalogGraph {
  import opened Wrappers

  datatype Identity = Identity(id: string, version: string)

  datatype Dependency = Dependency(source: string, target: Identity)

  datatype Module = Module(identity: Identity, dependencies: seq<Dependency>)

  /** For each module version, the local module versions it depends on. */
  type Graph = map<Identity, set<Identity>>

  // ----- Building -----

  /** The last module listed under an identity decides. */
  function Named(modules: seq<Module>, identity: Identity): Option<Module> {
    if modules == [] then None
    else if modules[|modules| - 1].identity == identity then Some(modules[|modules| - 1])
    else Named(modules[..|modules| - 1], identity)
  }

  predicate LocalEdge(modules: seq<Module>, source: string, from: Identity, to: Identity) {
    && Named(modules, from).Some? && Named(modules, to).Some?
    && Dependency(source, to) in Named(modules, from).value.dependencies
  }

  ghost predicate Closed(graph: Graph) {
    forall n, m | n in graph && m in graph[n] :: m in graph
  }

  method ByIdentity(modules: seq<Module>) returns (byIdentity: map<Identity, Module>)
    ensures forall n :: Named(modules, n) == Get(byIdentity, n)
  {
    byIdentity := map[];
    for i := 0 to |modules|
      invariant forall n :: Named(modules[..i], n) == Get(byIdentity, n)
    {
      assert modules[..i + 1][..i] == modules[..i] && modules[..i + 1][i] == modules[i];
      byIdentity := byIdentity[modules[i].identity := modules[i]];
    }
    assert modules[..|modules|] == modules;
  }

  /** The local targets of one module that the catalog really lists. */
  method Targets(byIdentity: map<Identity, Module>, source: string, m: Module) returns (targets: set<Identity>)
    ensures forall t :: t in targets <==> t in byIdentity && Dependency(source, t) in m.dependencies
  {
    targets := {};
    for i := 0 to |m.dependencies|
      invariant forall t :: t in targets <==> t in byIdentity && Dependency(source, t) in m.dependencies[..i]
    {
      var d := m.dependencies[i];
      assert m.dependencies[..i + 1] == m.dependencies[..i] + [d];
      if d.source == source && d.target in byIdentity {
        targets := targets + {d.target};
      }
    }
    assert m.dependencies[..|m.dependencies|] == m.dependencies;
  }

  /** The graph has exactly the listed module versions, and exactly their local dependencies on listed
      versions as edges. */
  method Build(modules: seq<Module>, source: string) returns (graph: Graph)
    ensures forall n :: n in graph <==> Named(modules, n).Some?
    ensures forall n, t :: n in graph && t in graph[n] <==> LocalEdge(modules, source, n, t)
    ensures Closed(graph)
  {
    var byIdentity := ByIdentity(modules);
    graph := map[];
    var todo := byIdentity.Keys;
    while todo != {}
      invariant todo <= byIdentity.Keys && graph.Keys == byIdentity.Keys - todo
      invariant forall n, t :: n in graph && t in graph[n] <==> n !in todo && LocalEdge(modules, source, n, t)
      decreases |todo|
    {
      var n :| n in todo;
      var targets := Targets(byIdentity, source, byIdentity[n]);
      graph := graph[n := targets];
      todo := todo - {n};
    }
  }

  // ----- Cycles and topological orders -----

  predicate Edge(graph: Graph, n: Identity, m: Identity) {
    n in graph && m in graph[n]
  }

  predicate Path(graph: Graph, p: seq<Identity>) {
    forall i | 0 <= i < |p| - 1 :: Edge(graph, p[i], p[i + 1])
  }

  predicate Cycle(graph: Graph, p: seq<Identity>) {
    2 <= |p| && p[0] == p[|p| - 1] && Path(graph, p)
  }

  /** Every module comes behind all that depend on it. */
  ghost predicate Topological(graph: Graph, order: seq<Identity>) {
    && Distinct(order)
    && forall j, n | 0 <= j < |order| && Edge(graph, n, order[j]) :: n in order[..j]
  }

  lemma {:induction false} PathAdvances(graph: Graph, order: seq<Identity>, p: seq<Identity>, at: seq<nat>)
    requires Topological(graph, order) && Path(graph, p) && |at| == |p| && 1 <= |p|
    requires forall i | 0 <= i < |p| :: at[i] < |order| && order[at[i]] == p[i]
    ensures |p| > 1 ==> at[0] < at[|p| - 1]
  {
    if |p| > 1 {
      var n := |p| - 1;
      assert Edge(graph, p[n - 1], p[n]);
      assert Edge(graph, p[n - 1], order[at[n]]) && p[n - 1] in order[..at[n]];
      var k :| 0 <= k < at[n] && order[k] == p[n - 1];
      assert k == at[n - 1];
      assert forall i | 0 <= i < n - 1 :: Edge(graph, p[..n][i], p[..n][i + 1]) by {
        assert forall i | 0 <= i < n - 1 :: Edge(graph, p[i], p[i + 1]);
      }
      PathAdvances(graph, order, p[..n], at[..n]);
    }
  }

  /** A complete topological order leaves no room for a cycle. */
  lemma OrderedHasNoCycle(graph: Graph, order: seq<Identity>, p: seq<Identity>)
    requires Closed(graph) && Topological(graph, order) && (forall n | n in graph :: n in order)
    ensures !Cycle(graph, p)
  {
    if Cycle(graph, p) {
      forall i | 0 <= i < |p|
        ensures p[i] in order
      {
        assert i < |p| - 1 ==> Edge(graph, p[i], p[i + 1]);
        assert i > 0 ==> Edge(graph, p[i - 1], p[i]);
      }
      var at := Positions(order, p);
      PathAdvances(graph, order, p, at);
    }
  }

  lemma {:induction false} Positions(order: seq<Identity>, p: seq<Identity>) returns (at: seq<nat>)
    requires forall i | 0 <= i < |p| :: p[i] in order
    ensures |at| == |p| && forall i | 0 <= i < |p| :: at[i] < |order| && order[at[i]] == p[i]
  {
    if p == [] {
      at := [];
    } else {
      var n := |p| - 1;
      var before := Positions(order, p[..n]);
      var k :| 0 <= k < |order| && order[k] == p[n];
      at := before + [k];
    }
  }

  ghost predicate Pursued(graph: Graph, stuck: set<Identity>, m: Identity) {
    exists n :: n in stuck && Edge(graph, n, m)
  }

  lemma Extend(graph: Graph, n: Identity, q: seq<Identity>)
    requires q != [] && Path(graph, q) && Edge(graph, n, q[0])
    ensures Path(graph, [n] + q)
  {
    var p := [n] + q;
    forall i | 0 <= i < |p| - 1
      ensures Edge(graph, p[i], p[i + 1])
    {
      if i > 0 { assert Edge(graph, q[i - 1], q[i - 1 + 1]); }
    }
  }

  lemma SubPath(graph: Graph, p: seq<Identity>, i: nat, j: nat)
    requires i <= j <= |p| && Path(graph, p)
    ensures Path(graph, p[i..j])
  {
    var q := p[i..j];
    forall k | 0 <= k < |q| - 1
      ensures Edge(graph, q[k], q[k + 1])
    {
      assert Edge(graph, p[i + k], p[i + k + 1]);
    }
  }

  /** Walking backwards inside a set where everyone has a predecessor. */
  lemma {:induction false} BackWalk(graph: Graph, stuck: set<Identity>, length: nat) returns (p: seq<Identity>)
    requires stuck != {} && forall m | m in stuck :: Pursued(graph, stuck, m)
    ensures |p| == length + 1 && Path(graph, p) && forall i | 0 <= i < |p| :: p[i] in stuck
  {
    if length == 0 {
      var m :| m in stuck;
      p := [m];
    } else {
      var q := BackWalk(graph, stuck, length - 1);
      assert Pursued(graph, stuck, q[0]);
      var n :| n in stuck && Edge(graph, n, q[0]);
      Extend(graph, n, q);
      p := [n] + q;
    }
  }

  /** The pigeonhole principle. */
  lemma {:induction false} Repeats(p: seq<Identity>, nodes: set<Identity>) returns (i: nat, j: nat)
    requires |nodes| < |p| && forall k | 0 <= k < |p| :: p[k] in nodes
    ensures i < j < |p| && p[i] == p[j]
  {
    var n := |p| - 1;
    if k :| 0 <= k < n && p[k] == p[n] {
      i, j := k, n;
    } else {
      i, j := Repeats(p[..n], nodes - {p[n]});
    }
  }

  lemma StuckHasCycle(graph: Graph, stuck: set<Identity>)
    requires stuck != {} && forall m | m in stuck :: Pursued(graph, stuck, m)
    ensures exists p :: Cycle(graph, p)
  {
    var p := BackWalk(graph, stuck, |stuck|);
    var i, j := Repeats(p, stuck);
    SubPath(graph, p, i, j + 1);
    assert Cycle(graph, p[i..j + 1]);
  }

  // ----- The check -----

  /** The modules outside `done` that depend on `m`. */
  function Waiting(graph: Graph, done: set<Identity>, m: Identity): set<Identity> {
    set n | n in graph && n !in done && m in graph[n]
  }

  method CountIncoming(graph: Graph) returns (incoming: map<Identity, int>)
    requires Closed(graph)
    ensures incoming.Keys == graph.Keys
    ensures forall m | m in graph :: incoming[m] == |Waiting(graph, {}, m)|
  {
    incoming := map m | m in graph :: 0;
    var todo := graph.Keys;
    while todo != {}
      invariant todo <= graph.Keys && incoming.Keys == graph.Keys
      invariant forall m | m in graph :: incoming[m] == |Waiting(graph, todo, m)|
      decreases |todo|
    {
      var n :| n in todo;
      incoming := AddOne(graph, incoming, graph[n], 1);
      forall m | m in graph
        ensures |Waiting(graph, todo - {n}, m)| == |Waiting(graph, todo, m)| + if m in graph[n] then 1 else 0
      {
        WaitingWithout(graph, todo, n, m);
      }
      todo := todo - {n};
    }
  }

  lemma WaitingWithout(graph: Graph, done: set<Identity>, n: Identity, m: Identity)
    requires n in graph && n in done
    ensures |Waiting(graph, done - {n}, m)| == |Waiting(graph, done, m)| + if m in graph[n] then 1 else 0
  {
    assert Waiting(graph, done - {n}, m) == Waiting(graph, done, m) + if m in graph[n] then {n} else {};
  }

  /** One pass over the targets of a module, in any order. */
  method AddOne(graph: Graph, incoming: map<Identity, int>, targets: set<Identity>, amount: int)
    returns (r: map<Identity, int>)
    requires incoming.Keys == graph.Keys && targets <= graph.Keys
    ensures r.Keys == graph.Keys
    ensures forall m | m in graph :: r[m] == incoming[m] + if m in targets then amount else 0
  {
    r := incoming;
    var todo := targets;
    while todo != {}
      invariant todo <= targets && r.Keys == graph.Keys
      invariant forall m | m in graph :: r[m] == incoming[m] + if m in targets - todo then amount else 0
      decreases |todo|
    {
      var m :| m in todo;
      r := r[m := r[m] + amount];
      todo := todo - {m};
    }
  }

  /** One visit: the targets of `n` lose an incoming edge, and those that lose their last become ready. */
  method Visit(graph: Graph, incoming: map<Identity, int>, n: Identity)
    returns (r: map<Identity, int>, freed: seq<Identity>)
    requires Closed(graph) && n in graph && incoming.Keys == graph.Keys
    requires forall m | m in graph[n] :: m in graph && incoming[m] > 0
    ensures Visited(graph, incoming, n, r, freed)
  {
    r, freed := incoming, [];
    var todo := graph[n];
    while todo != {}
      invariant todo <= graph[n] && r.Keys == graph.Keys
      invariant forall m | m in graph :: r[m] == incoming[m] - if m in graph[n] - todo then 1 else 0
      invariant forall m :: m in freed <==> m in graph[n] - todo && r[m] == 0
      invariant Distinct(freed)
      decreases |todo|
    {
      var m :| m in todo;
      r := r[m := r[m] - 1];
      if r[m] == 0 { freed := freed + [m]; }
      todo := todo - {m};
    }
  }

  /** What holds between two visits: nothing was visited twice, in order, and exactly the modules
      without an unvisited dependent are visited or ready. */
  ghost predicate Progress(graph: Graph, incoming: map<Identity, int>, ready: seq<Identity>, order: seq<Identity>) {
    && Topological(graph, order) && incoming.Keys == graph.Keys && Counted(graph, incoming, Elements(order))
    && Distinct(ready) && (forall m :: m in ready <==> m in graph && m !in order && incoming[m] == 0)
    && forall m | m in order :: m in graph && incoming[m] == 0
  }

  function Elements(s: seq<Identity>): set<Identity> { set n | n in s }

  /** The result `r`, `freed` of visiting `n`. */
  ghost predicate Visited(graph: Graph, incoming: map<Identity, int>, n: Identity, r: map<Identity, int>,
                          freed: seq<Identity>) {
    && n in graph && r.Keys == incoming.Keys == graph.Keys
    && (forall m | m in graph[n] :: m in graph && incoming[m] > 0)
    && (forall m | m in graph :: r[m] == incoming[m] - if m in graph[n] then 1 else 0)
    && (forall m :: m in freed <==> m in graph[n] && r[m] == 0)
    && Distinct(freed)
  }

  predicate Distinct(s: seq<Identity>) {
    forall i, j | 0 <= i < j < |s| :: s[i] != s[j]
  }

  predicate Counted(graph: Graph, incoming: map<Identity, int>, done: set<Identity>)
    requires incoming.Keys == graph.Keys
  {
    forall m | m in graph :: incoming[m] == |Waiting(graph, done, m)|
  }

  lemma StillCounted(graph: Graph, incoming: map<Identity, int>, done: set<Identity>, n: Identity,
                     r: map<Identity, int>)
    requires n in graph && n !in done && r.Keys == incoming.Keys == graph.Keys && Counted(graph, incoming, done)
    requires forall m | m in graph :: r[m] == incoming[m] - if m in graph[n] then 1 else 0
    ensures Counted(graph, r, done + {n})
  {
    forall m | m in graph
      ensures r[m] == |Waiting(graph, done + {n}, m)|
    {
      assert Waiting(graph, done, m) == Waiting(graph, done + {n}, m) + if m in graph[n] then {n} else {};
    }
  }

  /** What is ready after a visit. */
  lemma NextReady(graph: Graph, incoming: map<Identity, int>, ready: seq<Identity>, order: seq<Identity>, k: nat,
                  r: map<Identity, int>, freed: seq<Identity>)
    requires k < |ready| && Distinct(ready) && Visited(graph, incoming, ready[k], r, freed)
    requires forall m :: m in ready <==> m in graph && m !in order && incoming[m] == 0
    requires forall m | m in order :: m in graph && incoming[m] == 0
    ensures var next, after := ready[..k] + ready[k + 1..] + freed, order + [ready[k]];
            && Distinct(next) && (forall m :: m in next <==> m in graph && m !in after && r[m] == 0)
            && forall m | m in after :: m in graph && r[m] == 0
  {
    var n, rest := ready[k], ready[..k] + ready[k + 1..];
    assert Distinct(rest);
    assert forall m :: m in rest <==> m in ready && m != n;
    assert n in ready && n !in graph[n];
    DistinctJoin(rest, freed);
  }

  lemma DistinctJoin(a: seq<Identity>, b: seq<Identity>)
    requires Distinct(a) && Distinct(b) && forall m | m in b :: m !in a
    ensures Distinct(a + b)
  {
    var c := a + b;
    forall i, j | 0 <= i < j < |c|
      ensures c[i] != c[j]
    {
      assert j >= |a| ==> c[j] in b;
      assert i < |a| ==> c[i] in a;
    }
  }

  lemma VisitKeepsProgress(graph: Graph, incoming: map<Identity, int>, ready: seq<Identity>, order: seq<Identity>,
                           k: nat,
                           r: map<Identity, int>, freed: seq<Identity>)
    requires Progress(graph, incoming, ready, order) && k < |ready| && Visited(graph, incoming, ready[k], r, freed)
    ensures Progress(graph, r, ready[..k] + ready[k + 1..] + freed, order + [ready[k]])
  {
    var n := ready[k];
    assert n in ready;
    StillCounted(graph, incoming, Elements(order), n, r);
    assert Elements(order + [n]) == Elements(order) + {n};
    forall p | Edge(graph, p, n)
      ensures p in order
    {
      assert p in Waiting(graph, Elements(order), n) || p in Elements(order);
    }
    NextInOrder(graph, order, n);
    NextReady(graph, incoming, ready, order, k, r, freed);
  }

  lemma NextInOrder(graph: Graph, order: seq<Identity>, n: Identity)
    requires Topological(graph, order) && n !in order
    requires forall p | Edge(graph, p, n) :: p in order
    ensures Topological(graph, order + [n])
  {
    var after := order + [n];
    forall j, p | 0 <= j < |after| && Edge(graph, p, after[j])
      ensures p in after[..j]
    {
      assert after[..j] == if j < |order| then order[..j] else order;
      if j < |order| { assert Edge(graph, p, order[j]); }
    }
  }

  method InitiallyReady(graph: Graph, incoming: map<Identity, int>) returns (ready: seq<Identity>)
    requires incoming.Keys == graph.Keys
    ensures Distinct(ready) && forall m :: m in ready <==> m in graph && incoming[m] == 0
  {
    ready := [];
    var todo := incoming.Keys;
    while todo != {}
      invariant todo <= graph.Keys && Distinct(ready)
      invariant forall m :: m in ready <==> m in graph && m !in todo && incoming[m] == 0
      decreases |todo|
    {
      var m :| m in todo;
      if incoming[m] == 0 { ready := ready + [m]; }
      todo := todo - {m};
    }
  }

  /** One round: any ready module is visited. */
  method VisitAny(graph: Graph, incoming: map<Identity, int>, ready: seq<Identity>, order: seq<Identity>)
    returns (incoming': map<Identity, int>, ready': seq<Identity>, order': seq<Identity>)
    requires Closed(graph) && Progress(graph, incoming, ready, order) && ready != []
    ensures Progress(graph, incoming', ready', order')
    ensures |graph.Keys - Elements(order')| < |graph.Keys - Elements(order)|
  {
    var k: int := *;
    if !(0 <= k < |ready|) { k := |ready| - 1; }
    var n := ready[k];
    assert n in ready;
    forall m | m in graph[n]
      ensures m in graph && incoming[m] > 0
    {
      assert n in Waiting(graph, Elements(order), m);
    }
    var freed: seq<Identity>;
    incoming', freed := Visit(graph, incoming, n);
    VisitKeepsProgress(graph, incoming, ready, order, k, incoming', freed);
    ready', order' := ready[..k] + ready[k + 1..] + freed, order + [n];
    OneLess(graph, order, n);
  }

  lemma OneLess(graph: Graph, order: seq<Identity>, n: Identity)
    requires n in graph && n !in order
    ensures |graph.Keys - Elements(order + [n])| < |graph.Keys - Elements(order)|
  {
    assert Elements(order + [n]) == Elements(order) + {n};
    var big, small := graph.Keys - Elements(order), graph.Keys - Elements(order + [n]);
    assert small == big - {n};
  }

  method VisitAll(graph: Graph) returns (order: seq<Identity>, ghost incoming: map<Identity, int>)
    requires Closed(graph)
    ensures Progress(graph, incoming, [], order)
  {
    var counts := CountIncoming(graph);
    var ready := InitiallyReady(graph, counts);
    order := [];
    assert Elements(order) == {};
    while ready != []
      invariant Progress(graph, counts, ready, order)
      decreases |graph.Keys - Elements(order)|
    {
      counts, ready, order := VisitAny(graph, counts, ready, order);
    }
    incoming := counts;
  }

  /** The cycle check, popping `ready` in any order: a cycle is reported exactly when the graph has
      one, and otherwise everything was visited in a topological order. */
  method FindCycle(graph: Graph) returns (cyclic: bool, order: seq<Identity>)
    requires Closed(graph)
    ensures cyclic <==> exists p :: Cycle(graph, p)
    ensures Topological(graph, order)
    ensures !cyclic ==> forall n :: n in graph <==> n in order
  {
    ghost var incoming;
    order, incoming := VisitAll(graph);
    DistinctSize(order);
    SubsetSizes(Elements(order), graph.Keys);
    cyclic := |order| != |graph|;
    if cyclic {
      Unvisited(graph, incoming, order);
    } else {
      assert forall n :: n in Elements(order) <==> n in order;
      forall p
        ensures !Cycle(graph, p)
      {
        OrderedHasNoCycle(graph, order, p);
      }
    }
  }

  lemma {:induction false} DistinctSize(s: seq<Identity>)
    requires Distinct(s)
    ensures |Elements(s)| == |s|
  {
    if s != [] {
      var n := |s| - 1;
      DistinctSize(s[..n]);
      assert s == s[..n] + [s[n]];
      assert Elements(s) == Elements(s[..n]) + {s[n]};
    }
  }

  lemma SubsetSizes(a: set<Identity>, b: set<Identity>)
    requires a <= b
    ensures |a| == |b| ==> a == b
  {
    assert b == a + (b - a);
  }

  /** With nothing ready, every unvisited module still waits for an unvisited dependent. */
  lemma Unvisited(graph: Graph, incoming: map<Identity, int>, order: seq<Identity>)
    requires Progress(graph, incoming, [], order) && Closed(graph) && |Elements(order)| != |graph|
    ensures exists p :: Cycle(graph, p)
  {
    var stuck := graph.Keys - Elements(order);
    assert stuck == {} ==> graph.Keys == Elements(order);
    forall m | m in stuck
      ensures Pursued(graph, stuck, m)
    {
      assert m !in [] && incoming[m] != 0;
      var n :| n in Waiting(graph, Elements(order), m);
      assert Edge(graph, n, m);
    }
    StuckHasCycle(graph, stuck);
  }

  ghost predicate LocalCycle(modules: seq<Module>, source: string, p: seq<Identity>) {
    && 2 <= |p| && p[0] == p[|p| - 1]
    && forall i | 0 <= i < |p| - 1 :: LocalEdge(modules, source, p[i], p[i + 1])
  }

  /** From the listed modules to the verdict: "local dependency cycle" is reported exactly when some
      listed module version depends on itself through listed local dependencies. */
  method ReportsCycle(modules: seq<Module>, source: string) returns (cyclic: bool)
    ensures cyclic <==> exists p :: LocalCycle(modules, source, p)
  {
    var graph := Build(modules, source);
    var order;
    cyclic, order := FindCycle(graph);
    forall p
      ensures Cycle(graph, p) <==> LocalCycle(modules, source, p)
    {
      SameCycle(graph, modules, source, p);
    }
  }

  lemma SameCycle(graph: Graph, modules: seq<Module>, source: string, p: seq<Identity>)
    requires forall n, t :: n in graph && t in graph[n] <==> LocalEdge(modules, source, n, t)
    ensures Cycle(graph, p) <==> LocalCycle(modules, source, p)
  {
    assert forall n, t :: Edge(graph, n, t) <==> LocalEdge(modules, source, n, t);
  }
}
