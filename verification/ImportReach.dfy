/** The credential-isolation lint on a given module graph: breadth-first reachability and the audit over it. */
module ImportReach {
  import opened Wrappers
  import opened Sorting
  import Seqs

  type Module = string

  /** A static environment read names its variable; a dynamic one does not. */
  datatype EnvRead = EnvRead(name: Option<string>)

  datatype ModuleInfo = ModuleInfo(imports: set<Module>, envReads: seq<EnvRead>)

  type Graph = map<Module, ModuleInfo>

  type Path = seq<Module>

  // ---- import chains ----

  predicate Edge(graph: Graph, from: Module, to: Module) {
    from in graph && to in graph[from].imports && to in graph
  }

  /** A chain of in-graph imports from root to m; the root itself need not be in the graph. */
  predicate IsChain(graph: Graph, root: Module, p: Path, m: Module) {
    && p != [] && p[0] == root && p[|p| - 1] == m
    && forall i :: 0 <= i < |p| - 1 ==> Edge(graph, p[i], p[i + 1])
  }

  ghost predicate Reaches(graph: Graph, root: Module, m: Module) {
    exists p :: IsChain(graph, root, p, m)
  }

  ghost predicate IsShortest(graph: Graph, root: Module, p: Path, m: Module) {
    IsChain(graph, root, p, m) && forall q :: IsChain(graph, root, q, m) ==> |p| <= |q|
  }

  lemma ExtendChain(graph: Graph, root: Module, p: Path, m: Module, to: Module)
    requires IsChain(graph, root, p, m) && Edge(graph, m, to)
    ensures IsChain(graph, root, p + [to], to)
  {
    var q := p + [to];
    forall i | 0 <= i < |q| - 1 ensures Edge(graph, q[i], q[i + 1]) {
      if i < |p| - 1 {
        assert Edge(graph, p[i], p[i + 1]);
      }
    }
  }

  /** Cutting a loop out of a chain leaves a shorter chain, so shortest chains repeat no module. */
  lemma ShortestHasNoRepeats(graph: Graph, root: Module, p: Path, m: Module, i: nat, j: nat)
    requires IsShortest(graph, root, p, m) && i < j < |p|
    ensures p[i] != p[j]
  {
    if p[i] == p[j] {
      var q := p[..i] + p[j..];
      assert q[0] == root;
      forall k | 0 <= k < |q| - 1 ensures Edge(graph, q[k], q[k + 1]) {
        if k < i - 1 {
          assert Edge(graph, p[k], p[k + 1]);
        } else if k == i - 1 {
          assert Edge(graph, p[i - 1], p[i]);
        } else {
          assert Edge(graph, p[k - i + j], p[k - i + j + 1]);
        }
      }
      assert IsChain(graph, root, q, m);
    }
  }

  // ---- breadth-first search ----

  /** Every import of u that is in the graph has been found, at most one step further than u. */
  ghost predicate Expanded(graph: Graph, paths: map<Module, Path>, u: Module)
    requires u in paths
  {
    forall v :: Edge(graph, u, v) ==> v in paths && |paths[v]| <= |paths[u]| + 1
  }

  ghost predicate FoundChains(graph: Graph, root: Module, paths: map<Module, Path>) {
    forall m :: m in paths ==> IsChain(graph, root, paths[m], m)
  }

  lemma {:induction false} ClosedIsShortest(graph: Graph, root: Module, paths: map<Module, Path>, p: Path, m: Module)
    requires root in paths && |paths[root]| == 1 && forall u :: u in paths ==> Expanded(graph, paths, u)
    requires IsChain(graph, root, p, m)
    ensures m in paths && |paths[m]| <= |p|
    decreases |p|
  {
    if |p| > 1 {
      var n := |p| - 1;
      var q, u := p[..n], p[n - 1];
      forall i | 0 <= i < |q| - 1 ensures Edge(graph, q[i], q[i + 1]) {
        assert Edge(graph, p[i], p[i + 1]);
      }
      ClosedIsShortest(graph, root, paths, q, u);
      assert Edge(graph, p[n - 1], p[n]);
    }
  }

  /** What the queue promises: its paths grow by at most one step from front to back. */
  ghost predicate Layered(paths: map<Module, Path>, queue: seq<Module>) {
    && (forall i :: 0 <= i < |queue| ==> queue[i] in paths)
    && (forall i, j :: 0 <= i < j < |queue| ==> |paths[queue[i]]| <= |paths[queue[j]]|)
  }

  ghost predicate NoRepeats(queue: seq<Module>) {
    forall i, j :: 0 <= i < j < |queue| ==> queue[i] != queue[j]
  }

  /** Nothing found lies more than one step beyond this length. */
  ghost predicate Within(paths: map<Module, Path>, length: nat) {
    forall m :: m in paths ==> |paths[m]| <= length + 1
  }

  ghost predicate Listed(paths: map<Module, Path>, order: seq<Module>) {
    && (forall m :: m in order <==> m in paths)
    && NoRepeats(order)
  }

  /** The search between two turns: every found module is waiting or expanded. */
  ghost predicate Searching(graph: Graph, root: Module, paths: map<Module, Path>, queue: seq<Module>,
                            order: seq<Module>) {
    && root in paths && |paths[root]| == 1 && paths.Keys <= graph.Keys + {root}
    && FoundChains(graph, root, paths) && Listed(paths, order) && Layered(paths, queue) && NoRepeats(queue)
    && (queue != [] ==> Within(paths, |paths[queue[0]]|))
    && forall u :: u in paths && u !in queue ==> Expanded(graph, paths, u)
  }

  /** The search while the imports of `current` are gone through. */
  ghost predicate Expanding(graph: Graph, root: Module, current: Module, paths: map<Module, Path>, queue: seq<Module>,
                            order: seq<Module>) {
    && current in paths
    && root in paths && |paths[root]| == 1 && paths.Keys <= graph.Keys + {root}
    && FoundChains(graph, root, paths) && Listed(paths, order) && Layered(paths, queue) && NoRepeats(queue)
    && Within(paths, |paths[current]|)
    && (forall i :: 0 <= i < |queue| ==> |paths[current]| <= |paths[queue[i]]|)
    && forall u :: u in paths && u !in queue && u != current ==> Expanded(graph, paths, u)
  }

  lemma Dequeue(graph: Graph, root: Module, paths: map<Module, Path>, queue: seq<Module>, order: seq<Module>)
    requires Searching(graph, root, paths, queue, order) && queue != []
    ensures Expanding(graph, root, queue[0], paths, queue[1..], order)
  {
    var rest := queue[1..];
    forall i, j | 0 <= i < j < |rest| ensures rest[i] != rest[j] && |paths[rest[i]]| <= |paths[rest[j]]| {
      assert queue[i + 1] != queue[j + 1];
    }
    forall u | u in paths && u !in rest && u != queue[0] ensures u !in queue {
      assert queue == [queue[0]] + rest;
    }
  }

  /** The first i targets that are in the graph have been found. */
  ghost predicate Covered(graph: Graph, paths: map<Module, Path>, targets: seq<Module>, i: nat)
    requires i <= |targets|
  {
    forall j :: 0 <= j < i && targets[j] in graph ==> targets[j] in paths
  }

  lemma CoverOneMore(graph: Graph, paths: map<Module, Path>, paths': map<Module, Path>, targets: seq<Module>, i: nat)
    requires i < |targets| && Covered(graph, paths, targets, i) && paths.Keys <= paths'.Keys
    ensures targets[i] in paths || targets[i] !in graph ==> Covered(graph, paths, targets, i + 1)
    ensures targets[i] in paths' ==> Covered(graph, paths', targets, i + 1)
  {
  }

  lemma Expansion(graph: Graph, root: Module, current: Module, paths: map<Module, Path>, queue: seq<Module>,
                  order: seq<Module>, targets: seq<Module>)
    requires Expanding(graph, root, current, paths, queue, order)
    requires forall v :: v in targets <==> current in graph && v in graph[current].imports
    requires Covered(graph, paths, targets, |targets|)
    ensures Searching(graph, root, paths, queue, order)
  {
    forall v | Edge(graph, current, v) ensures v in paths {
      assert v in targets;
    }
    assert Expanded(graph, paths, current);
  }

  lemma StillExpanded(graph: Graph, paths: map<Module, Path>, m: Module, p: Path, u: Module)
    requires u in paths && m !in paths && Expanded(graph, paths, u)
    ensures Expanded(graph, paths[m := p], u)
  {
  }

  lemma FoundOneMore(graph: Graph, root: Module, paths: map<Module, Path>, order: seq<Module>, m: Module, p: Path)
    requires FoundChains(graph, root, paths) && Listed(paths, order)
    requires m !in paths && IsChain(graph, root, p, m)
    ensures FoundChains(graph, root, paths[m := p]) && Listed(paths[m := p], order + [m])
  {
  }

  lemma QueuedOneMore(paths: map<Module, Path>, queue: seq<Module>, current: Module, m: Module, p: Path)
    requires current in paths && m !in paths && |p| == |paths[current]| + 1
    requires Layered(paths, queue) && NoRepeats(queue) && Within(paths, |paths[current]|)
    requires forall i :: 0 <= i < |queue| ==> |paths[current]| <= |paths[queue[i]]|
    ensures var paths', queue' := paths[m := p], queue + [m];
            && Layered(paths', queue') && NoRepeats(queue') && Within(paths', |paths'[current]|)
            && forall i :: 0 <= i < |queue'| ==> |paths'[current]| <= |paths'[queue'[i]]|
  {
    var paths', queue' := paths[m := p], queue + [m];
    forall i, j | 0 <= i < j < |queue'| ensures |paths'[queue'[i]]| <= |paths'[queue'[j]]| {
      if j == |queue| {
        assert queue[i] in paths;
      }
    }
  }

  lemma Enqueue(graph: Graph, root: Module, current: Module, paths: map<Module, Path>, queue: seq<Module>,
                order: seq<Module>, m: Module)
    requires Expanding(graph, root, current, paths, queue, order)
    requires Edge(graph, current, m) && m !in paths
    ensures Expanding(graph, root, current, paths[m := paths[current] + [m]], queue + [m], order + [m])
  {
    var p := paths[current] + [m];
    ExtendChain(graph, root, paths[current], current, m);
    FoundOneMore(graph, root, paths, order, m, p);
    QueuedOneMore(paths, queue, current, m, p);
    forall u | u in paths[m := p] && u !in queue + [m] && u != current ensures Expanded(graph, paths[m := p], u) {
      assert u !in queue;
      StillExpanded(graph, paths, m, p, u);
    }
  }

  /** One expansion: the imports of `current`, ascending, each new one queued with its path. */
  method Expand(graph: Graph, ghost root: Module, current: Module, paths: map<Module, Path>, queue: seq<Module>,
                order: seq<Module>)
    returns (paths': map<Module, Path>, queue': seq<Module>, order': seq<Module>)
    requires Expanding(graph, root, current, paths, queue, order) && current in graph
    ensures Searching(graph, root, paths', queue', order')
    ensures paths.Keys <= paths'.Keys && (paths.Keys == paths'.Keys ==> queue' == queue)
  {
    paths', queue', order' := paths, queue, order;
    var targets := Ascending(graph[current].imports);
    for i := 0 to |targets|
      invariant Expanding(graph, root, current, paths', queue', order')
      invariant paths.Keys <= paths'.Keys && (paths.Keys == paths'.Keys ==> queue' == queue)
      invariant Covered(graph, paths', targets, i)
    {
      var target := targets[i];
      CoverOneMore(graph, paths', paths'[target := paths'[current] + [target]], targets, i);
      if target in paths' || target !in graph {
        continue;
      }
      assert target in graph[current].imports;
      Enqueue(graph, root, current, paths', queue', order', target);
      paths' := paths'[target := paths'[current] + [target]];
      queue' := queue' + [target];
      order' := order' + [target];
    }
    Expansion(graph, root, current, paths', queue', order', targets);
  }

  /** Exactly the modules reachable from the root inside the graph, each with a shortest chain to it. */
  ghost predicate IsReach(graph: Graph, root: Module, paths: map<Module, Path>) {
    && (forall m :: m in paths <==> Reaches(graph, root, m))
    && (forall m :: m in paths ==> IsShortest(graph, root, paths[m], m))
  }

  method BfsReachable(graph: Graph, root: Module) returns (paths: map<Module, Path>, order: seq<Module>)
    ensures IsReach(graph, root, paths)
    ensures Listed(paths, order)
  {
    paths := map[root := [root]];
    order := [root];
    var queue := [root];
    SearchStarts(graph, root);
    while queue != []
      invariant Searching(graph, root, paths, queue, order)
      decreases (graph.Keys + {root}) - paths.Keys, |queue|
    {
      Dequeue(graph, root, paths, queue, order);
      var current := queue[0];
      queue := queue[1..];
      if current in graph {
        paths, queue, order := Expand(graph, root, current, paths, queue, order);
      } else {
        Expansion(graph, root, current, paths, queue, order, []);
      }
    }
    SearchEnds(graph, root, paths, order);
  }

  lemma SearchStarts(graph: Graph, root: Module)
    ensures Searching(graph, root, map[root := [root]], [root], [root])
  {
  }

  lemma SearchEnds(graph: Graph, root: Module, paths: map<Module, Path>, order: seq<Module>)
    requires Searching(graph, root, paths, [], order)
    ensures IsReach(graph, root, paths) && Listed(paths, order)
  {
    ReachFromClosed(graph, root, paths);
  }

  lemma ReachFromClosed(graph: Graph, root: Module, paths: map<Module, Path>)
    requires root in paths && |paths[root]| == 1 && FoundChains(graph, root, paths)
    requires forall u :: u in paths ==> Expanded(graph, paths, u)
    ensures IsReach(graph, root, paths)
  {
    forall m | Reaches(graph, root, m) ensures m in paths {
      var p :| IsChain(graph, root, p, m);
      ClosedIsShortest(graph, root, paths, p, m);
    }
    forall m | m in paths ensures IsShortest(graph, root, paths[m], m) {
      forall q | IsChain(graph, root, q, m) ensures |paths[m]| <= |q| {
        ClosedIsShortest(graph, root, paths, q, m);
      }
    }
  }

  // ---- without chains ----

  /** Every import that the graph has, of a module of the set that it has, is in the set. */
  ghost predicate ImportClosed(graph: Graph, modules: set<Module>) {
    forall m, v :: m in modules && m in graph && v in graph[m].imports && v in graph ==> v in modules
  }

  /** What is reached is the least set with the root that is closed under imports. */
  lemma ReachIsLeastClosed(graph: Graph, root: Module, paths: map<Module, Path>, modules: set<Module>)
    requires IsReach(graph, root, paths)
    ensures root in paths && ImportClosed(graph, paths.Keys)
    ensures root in modules && ImportClosed(graph, modules) ==> paths.Keys <= modules
  {
    assert IsChain(graph, root, [root], root);
    forall m, v | m in paths && m in graph && v in graph[m].imports && v in graph ensures v in paths {
      ExtendChain(graph, root, paths[m], m, v);
    }
    if root in modules && ImportClosed(graph, modules) {
      forall m | m in paths ensures m in modules {
        ChainStays(graph, root, paths[m], m, modules);
      }
    }
  }

  lemma {:induction false} ChainStays(graph: Graph, root: Module, p: Path, m: Module, modules: set<Module>)
    requires IsChain(graph, root, p, m) && root in modules && ImportClosed(graph, modules)
    ensures m in modules
    decreases |p|
  {
    if |p| > 1 {
      var n := |p| - 1;
      assert Edge(graph, p[n - 1], p[n]);
      ChainStays(graph, root, p[..n], p[n - 1], modules);
    }
  }

  /** A path leads from the root to its module, each step to a module of the graph that the one before imports. */
  lemma PathsFollowImports(graph: Graph, root: Module, paths: map<Module, Path>, m: Module, i: nat)
    requires IsReach(graph, root, paths) && m in paths
    ensures var p := paths[m];
            && |p| > 0 && p[0] == root && p[|p| - 1] == m
            && (i + 1 < |p| ==> p[i] in graph && p[i + 1] in graph && p[i + 1] in graph[p[i]].imports)
  {
    var p := paths[m];
    if i + 1 < |p| {
      assert Edge(graph, p[i], p[i + 1]);
    }
  }
}
