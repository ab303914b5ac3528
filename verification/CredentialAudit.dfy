/** The credential-isolation audit over the reachable modules of each boundary. */
module CredentialAudit {
  import opened Wrappers
  import opened Sorting
  import opened ImportReach
  import Seqs

  datatype Boundary = Boundary(root: Module, forbiddenPrefixes: seq<string>)

  datatype Violation = Violation(
    boundary: Module, forbiddenPrefix: string, envVar: string, siteModule: Module, importPath: Path)

  predicate StartsWith(name: string, prefix: string) {
    |prefix| <= |name| && name[..|prefix|] == prefix
  }

  /** The first forbidden prefix a name starts with. */
  function FirstMatch(prefixes: seq<string>, name: string): (r: Option<string>)
    ensures r.None? <==> forall p <- prefixes :: !StartsWith(name, p)
    ensures r.Some? ==> r.value in prefixes && StartsWith(name, r.value)
  {
    if prefixes == [] then None
    else
      assert prefixes == [prefixes[0]] + prefixes[1..];
      if StartsWith(name, prefixes[0]) then Some(prefixes[0]) else FirstMatch(prefixes[1..], name)
  }

  /** It is the earliest entry of the list that the name starts with. */
  lemma {:induction false} FirstMatchIsFirst(prefixes: seq<string>, name: string) returns (i: nat)
    requires FirstMatch(prefixes, name).Some?
    ensures i < |prefixes| && FirstMatch(prefixes, name) == Some(prefixes[i]) && StartsWith(name, prefixes[i])
    ensures forall j :: 0 <= j < i ==> !StartsWith(name, prefixes[j])
  {
    if StartsWith(name, prefixes[0]) {
      i := 0;
    } else {
      i := FirstMatchIsFirst(prefixes[1..], name);
      forall j | 0 <= j < i + 1 ensures !StartsWith(name, prefixes[j]) {
        assert j == 0 || prefixes[j] == prefixes[1..][j - 1];
      }
      i := i + 1;
    }
  }

  /** One environment read of one module, seen from one boundary. */
  datatype Site = Site(boundary: nat, mod: Module, read: nat)

  predicate Forbidden(read: EnvRead, prefixes: seq<string>) {
    read.name.Some? && FirstMatch(prefixes, read.name.value).Some?
  }

  /** A static read of a reachable module that a forbidden prefix of the boundary matches. */
  ghost predicate IsSite(graph: Graph, boundaries: seq<Boundary>, s: Site) {
    && s.boundary < |boundaries| && boundaries[s.boundary].root in graph
    && Reaches(graph, boundaries[s.boundary].root, s.mod) && s.mod in graph
    && s.read < |graph[s.mod].envReads|
    && Forbidden(graph[s.mod].envReads[s.read], boundaries[s.boundary].forbiddenPrefixes)
  }

  /** The violation names the boundary, its first matching prefix, and a shortest import chain to the read. */
  ghost predicate Describes(graph: Graph, boundaries: seq<Boundary>, v: Violation, s: Site) {
    IsSite(graph, boundaries, s) &&
    var b, read := boundaries[s.boundary], graph[s.mod].envReads[s.read];
    && v.boundary == b.root && v.siteModule == s.mod && Some(v.envVar) == read.name
    && Some(v.forbiddenPrefix) == FirstMatch(b.forbiddenPrefixes, v.envVar)
    && IsShortest(graph, b.root, v.importPath, s.mod)
  }

  /** `found` has one violation for each site of the scope, and no other: `origins` says whose each one is. */
  ghost predicate Collected(graph: Graph, boundaries: seq<Boundary>, found: seq<Violation>, origins: seq<Site>,
                            scope: Site -> bool) {
    && |found| == |origins|
    && (forall s :: s in origins <==> IsSite(graph, boundaries, s) && scope(s))
    && (forall i :: 0 <= i < |found| ==> Describes(graph, boundaries, found[i], origins[i]))
    && (forall i, j :: 0 <= i < j < |origins| ==> origins[i] != origins[j])
  }

  /** One violation for each site of the scope, and no other. */
  ghost predicate Covers(graph: Graph, boundaries: seq<Boundary>, found: seq<Violation>, scope: Site -> bool) {
    exists origins :: Collected(graph, boundaries, found, origins, scope)
  }

  lemma MergeCovers(graph: Graph, boundaries: seq<Boundary>, f: seq<Violation>, p: Site -> bool,
                    f': seq<Violation>, p': Site -> bool, whole: Site -> bool)
    requires Covers(graph, boundaries, f, p) && Covers(graph, boundaries, f', p')
    requires forall s :: IsSite(graph, boundaries, s) ==> (whole(s) <==> p(s) || p'(s)) && !(p(s) && p'(s))
    ensures Covers(graph, boundaries, f + f', whole)
  {
    var o :| Collected(graph, boundaries, f, o, p);
    var o' :| Collected(graph, boundaries, f', o', p');
    Merge(graph, boundaries, f, o, p, f', o', p', whole);
  }

  lemma SameScope(graph: Graph, boundaries: seq<Boundary>, found: seq<Violation>, scope: Site -> bool,
                  same: Site -> bool)
    requires Covers(graph, boundaries, found, scope)
    requires forall s :: IsSite(graph, boundaries, s) ==> (scope(s) <==> same(s))
    ensures Covers(graph, boundaries, found, same)
  {
    var o :| Collected(graph, boundaries, found, o, scope);
    assert Collected(graph, boundaries, found, o, same);
  }

  lemma Merge(graph: Graph, boundaries: seq<Boundary>, f: seq<Violation>, o: seq<Site>, p: Site -> bool,
              f': seq<Violation>, o': seq<Site>, p': Site -> bool, whole: Site -> bool)
    requires Collected(graph, boundaries, f, o, p) && Collected(graph, boundaries, f', o', p')
    requires forall s :: IsSite(graph, boundaries, s) ==> (whole(s) <==> p(s) || p'(s)) && !(p(s) && p'(s))
    ensures Collected(graph, boundaries, f + f', o + o', whole)
  {
    MergedMembers(graph, boundaries, o, p, o', p', whole);
    MergedPairs(f, o, f', o', (v: Violation, s: Site) => Describes(graph, boundaries, v, s));
    forall i, j | 0 <= i < j < |o + o'| ensures (o + o')[i] != (o + o')[j] {
      MergedDistinct(graph, boundaries, f, o, p, f', o', p', i, j);
    }
  }

  lemma MergedMembers(graph: Graph, boundaries: seq<Boundary>, o: seq<Site>, p: Site -> bool,
                      o': seq<Site>, p': Site -> bool, whole: Site -> bool)
    requires forall s :: s in o <==> IsSite(graph, boundaries, s) && p(s)
    requires forall s :: s in o' <==> IsSite(graph, boundaries, s) && p'(s)
    requires forall s :: IsSite(graph, boundaries, s) ==> (whole(s) <==> p(s) || p'(s))
    ensures forall s :: s in o + o' <==> IsSite(graph, boundaries, s) && whole(s)
  {
  }

  lemma MergedPairs<A, B>(f: seq<A>, o: seq<B>, f': seq<A>, o': seq<B>, ok: (A, B) -> bool)
    requires |f| == |o| && |f'| == |o'|
    requires forall i :: 0 <= i < |f| ==> ok(f[i], o[i])
    requires forall i :: 0 <= i < |f'| ==> ok(f'[i], o'[i])
    ensures forall i :: 0 <= i < |f + f'| ==> ok((f + f')[i], (o + o')[i])
  {
  }

  lemma MergedDistinct(graph: Graph, boundaries: seq<Boundary>, f: seq<Violation>, o: seq<Site>, p: Site -> bool,
                       f': seq<Violation>, o': seq<Site>, p': Site -> bool, i: nat, j: nat)
    requires Collected(graph, boundaries, f, o, p) && Collected(graph, boundaries, f', o', p')
    requires forall s :: IsSite(graph, boundaries, s) ==> !(p(s) && p'(s))
    requires i < j < |o + o'|
    ensures (o + o')[i] != (o + o')[j]
  {
    if i < |o| <= j {
      assert o[i] in o && o'[j - |o|] in o';
    }
  }

  function ReadsOf(b: nat, m: Module, n: nat): Site -> bool {
    (s: Site) => s.boundary == b && s.mod == m && s.read < n
  }

  function OneRead(b: nat, m: Module, n: nat): Site -> bool {
    (s: Site) => s == Site(b, m, n)
  }

  function ModulesOf(b: nat, modules: seq<Module>): Site -> bool {
    (s: Site) => s.boundary == b && s.mod in modules
  }

  function OneBoundary(b: nat): Site -> bool {
    (s: Site) => s.boundary == b
  }

  function BoundariesBelow(b: nat): Site -> bool {
    (s: Site) => s.boundary < b
  }

  lemma NoneFound(graph: Graph, boundaries: seq<Boundary>, scope: Site -> bool)
    requires forall s :: IsSite(graph, boundaries, s) ==> !scope(s)
    ensures Covers(graph, boundaries, [], scope)
  {
    assert Collected(graph, boundaries, [], [], scope);
  }

  lemma OneFound(graph: Graph, boundaries: seq<Boundary>, v: Violation, site: Site)
    requires Describes(graph, boundaries, v, site)
    ensures Covers(graph, boundaries, [v], OneRead(site.boundary, site.mod, site.read))
  {
    assert Collected(graph, boundaries, [v], [site], OneRead(site.boundary, site.mod, site.read));
  }

  /** One read checked against one boundary: the first matching prefix, then on to the next read. */
  method AuditRead(graph: Graph, boundaries: seq<Boundary>, b: nat, m: Module, path: Path, r: nat)
    returns (found: seq<Violation>)
    requires b < |boundaries| && boundaries[b].root in graph && m in graph && r < |graph[m].envReads|
    requires IsShortest(graph, boundaries[b].root, path, m)
    ensures Covers(graph, boundaries, found, OneRead(b, m, r))
  {
    var read, prefixes := graph[m].envReads[r], boundaries[b].forbiddenPrefixes;
    found := [];
    assert Reaches(graph, boundaries[b].root, m);
    assert IsSite(graph, boundaries, Site(b, m, r)) <==> Forbidden(read, prefixes);
    if read.name.Some? {
      for i := 0 to |prefixes|
        invariant FirstMatch(prefixes, read.name.value) == FirstMatch(prefixes[i..], read.name.value)
      {
        assert prefixes[i..][0] == prefixes[i] && prefixes[i..][1..] == prefixes[i + 1..];
        if StartsWith(read.name.value, prefixes[i]) {
          found := [Violation(boundaries[b].root, prefixes[i], read.name.value, m, path)];
          OneFound(graph, boundaries, found[0], Site(b, m, r));
          return;
        }
      }
    }
    NoneFound(graph, boundaries, OneRead(b, m, r));
  }

  method AuditModule(graph: Graph, boundaries: seq<Boundary>, b: nat, m: Module, path: Path)
    returns (found: seq<Violation>)
    requires b < |boundaries| && boundaries[b].root in graph && m in graph
    requires IsShortest(graph, boundaries[b].root, path, m)
    ensures Covers(graph, boundaries, found, ModulesOf(b, [m]))
  {
    found := [];
    NoneFound(graph, boundaries, ReadsOf(b, m, 0));
    for r := 0 to |graph[m].envReads|
      invariant Covers(graph, boundaries, found, ReadsOf(b, m, r))
    {
      var more := AuditRead(graph, boundaries, b, m, path, r);
      NextRead(graph, boundaries, b, m, r, found, more);
      found := found + more;
    }
    WholeModule(graph, boundaries, b, m, found);
  }

  lemma NextRead(graph: Graph, boundaries: seq<Boundary>, b: nat, m: Module, r: nat, found: seq<Violation>,
                 more: seq<Violation>)
    requires Covers(graph, boundaries, found, ReadsOf(b, m, r)) && Covers(graph, boundaries, more, OneRead(b, m, r))
    ensures Covers(graph, boundaries, found + more, ReadsOf(b, m, r + 1))
  {
    MergeCovers(graph, boundaries, found, ReadsOf(b, m, r), more, OneRead(b, m, r), ReadsOf(b, m, r + 1));
  }

  lemma WholeModule(graph: Graph, boundaries: seq<Boundary>, b: nat, m: Module, found: seq<Violation>)
    requires m in graph && Covers(graph, boundaries, found, ReadsOf(b, m, |graph[m].envReads|))
    ensures Covers(graph, boundaries, found, ModulesOf(b, [m]))
  {
    SameScope(graph, boundaries, found, ReadsOf(b, m, |graph[m].envReads|), ModulesOf(b, [m]));
  }

  lemma ReachedIsInGraph(graph: Graph, root: Module, m: Module)
    requires root in graph && Reaches(graph, root, m)
    ensures m in graph
  {
    var p :| IsChain(graph, root, p, m);
    if |p| > 1 {
      assert Edge(graph, p[|p| - 2], p[|p| - 1]);
    }
  }

  method AuditBoundary(graph: Graph, boundaries: seq<Boundary>, b: nat) returns (found: seq<Violation>)
    requires b < |boundaries| && boundaries[b].root in graph
    ensures Covers(graph, boundaries, found, OneBoundary(b))
  {
    var root := boundaries[b].root;
    var paths, order := BfsReachable(graph, root);
    found := [];
    NoneFound(graph, boundaries, ModulesOf(b, []));
    for i := 0 to |order|
      invariant Covers(graph, boundaries, found, ModulesOf(b, order[..i]))
    {
      var m := order[i];
      assert m in order;
      ReachedIsInGraph(graph, root, m);
      var more := AuditModule(graph, boundaries, b, m, paths[m]);
      NextModule(order, i);
      MergeCovers(graph, boundaries, found, ModulesOf(b, order[..i]), more, ModulesOf(b, [m]),
                  ModulesOf(b, order[..i + 1]));
      found := found + more;
    }
    Seqs.FullPrefix(order);
    SameScope(graph, boundaries, found, ModulesOf(b, order), OneBoundary(b));
  }

  lemma NextModule(order: seq<Module>, i: nat)
    requires i < |order| && NoRepeats(order)
    ensures forall m :: m in order[..i + 1] <==> m in order[..i] || m in [order[i]]
    ensures order[i] !in order[..i]
  {
    assert order[..i + 1] == order[..i] + [order[i]];
  }

  /** Lexicographic on boundary, variable, site. */
  predicate KeyLe(x: Violation, y: Violation) {
    if x.boundary != y.boundary then StrLe(x.boundary, y.boundary)
    else if x.envVar != y.envVar then StrLe(x.envVar, y.envVar)
    else StrLe(x.siteModule, y.siteModule)
  }

  lemma KeyLeIsTotalPreorder()
    ensures TotalPreorder(KeyLe)
  {
    forall x: Violation, y: Violation ensures KeyLe(x, y) || KeyLe(y, x) {
      StrLeTotal(x.boundary, y.boundary);
      StrLeTotal(x.envVar, y.envVar);
      StrLeTotal(x.siteModule, y.siteModule);
    }
    forall x: Violation, y: Violation, z: Violation | KeyLe(x, y) && KeyLe(y, z) ensures KeyLe(x, z) {
      KeyTransitive(x, y, z);
    }
  }

  lemma StrLeChain(a: string, b: string, c: string)
    requires StrLe(a, b) && StrLe(b, c)
    ensures StrLe(a, c) && (a == c ==> a == b)
  {
    StrLeTransitive(a, b, c);
    StrLeTotal(a, b);
  }

  lemma KeyTransitive(x: Violation, y: Violation, z: Violation)
    requires KeyLe(x, y) && KeyLe(y, z)
    ensures KeyLe(x, z)
  {
    StrLeTotal(x.boundary, x.boundary);
    StrLeTotal(z.boundary, z.boundary);
    StrLeTotal(x.envVar, x.envVar);
    StrLeTotal(z.envVar, z.envVar);
    StrLeChain(x.boundary, y.boundary, z.boundary);
    if x.boundary == z.boundary {
      StrLeChain(x.envVar, y.envVar, z.envVar);
      if x.envVar == z.envVar {
        StrLeChain(x.siteModule, y.siteModule, z.siteModule);
      }
    }
  }

  /** One violation per forbidden read and boundary, sorted; a boundary outside the graph is skipped. */
  method AuditCredentialIsolation(graph: Graph, boundaries: seq<Boundary>) returns (violations: seq<Violation>)
    ensures exists found :: Covers(graph, boundaries, found, Everywhere()) && violations == StableSort(found, KeyLe)
    ensures SortedBy(violations, KeyLe)
    ensures violations == [] <==> forall s :: !IsSite(graph, boundaries, s)
  {
    var found := CollectViolations(graph, boundaries);
    violations := StableSort(found, KeyLe);
    KeyLeIsTotalPreorder();
    StableSortSorts(found, KeyLe);
    EmptyIffNoSite(graph, boundaries, found);
  }

  function Everywhere(): Site -> bool {
    (s: Site) => true
  }

  method CollectViolations(graph: Graph, boundaries: seq<Boundary>) returns (found: seq<Violation>)
    ensures Covers(graph, boundaries, found, Everywhere())
  {
    found := [];
    NoneFound(graph, boundaries, BoundariesBelow(0));
    for b := 0 to |boundaries|
      invariant Covers(graph, boundaries, found, BoundariesBelow(b))
    {
      var more := [];
      if boundaries[b].root in graph {
        more := AuditBoundary(graph, boundaries, b);
      } else {
        NoneFound(graph, boundaries, OneBoundary(b));
      }
      MergeCovers(graph, boundaries, found, BoundariesBelow(b), more, OneBoundary(b), BoundariesBelow(b + 1));
      found := found + more;
    }
    SameScope(graph, boundaries, found, BoundariesBelow(|boundaries|), Everywhere());
  }

  lemma EmptyIffNoSite(graph: Graph, boundaries: seq<Boundary>, found: seq<Violation>)
    requires Covers(graph, boundaries, found, Everywhere())
    ensures found == [] <==> forall s :: !IsSite(graph, boundaries, s)
  {
    var origins :| Collected(graph, boundaries, found, origins, Everywhere());
    if found != [] {
      assert origins[0] in origins;
    }
  }

  // ---- what the audit answers ----

  lemma StartsWithIff(name: string, prefix: string)
    ensures StartsWith(name, prefix) <==> exists rest :: name == prefix + rest
  {
    if StartsWith(name, prefix) {
      assert name == prefix + name[|prefix|..];
    }
    if exists rest :: name == prefix + rest {
      var rest :| name == prefix + rest;
      assert name[..|prefix|] == prefix;
    }
  }

  /** A module reads the named variable statically. */
  predicate Reads(graph: Graph, m: Module, name: string) {
    m in graph && exists read <- graph[m].envReads :: read.name == Some(name)
  }

  /** The first prefix of the list that the name starts with. */
  ghost predicate FirstPrefix(prefixes: seq<string>, name: string, i: nat) {
    && i < |prefixes| && (exists rest :: name == prefixes[i] + rest)
    && forall j :: 0 <= j < i ==> !exists rest :: name == prefixes[j] + rest
  }

  /** A violation is of a boundary's first prefix, by a static read of the module that its import path leads to. */
  ghost predicate Founded(graph: Graph, b: Boundary, v: Violation) {
    && b.root in graph && v.boundary == b.root && Reads(graph, v.siteModule, v.envVar)
    && IsShortest(graph, b.root, v.importPath, v.siteModule)
    && exists i: nat :: FirstPrefix(b.forbiddenPrefixes, v.envVar, i) && v.forbiddenPrefix == b.forbiddenPrefixes[i]
  }

  lemma DescribedIsFounded(graph: Graph, boundaries: seq<Boundary>, v: Violation, s: Site)
    requires Describes(graph, boundaries, v, s)
    ensures Founded(graph, boundaries[s.boundary], v)
  {
    var b := boundaries[s.boundary];
    assert graph[s.mod].envReads[s.read] in graph[s.mod].envReads;
    var i := FirstMatchIsFirst(b.forbiddenPrefixes, v.envVar);
    StartsWithIff(v.envVar, b.forbiddenPrefixes[i]);
    forall j | 0 <= j < i ensures !exists rest :: v.envVar == b.forbiddenPrefixes[j] + rest {
      StartsWithIff(v.envVar, b.forbiddenPrefixes[j]);
    }
    assert FirstPrefix(b.forbiddenPrefixes, v.envVar, i);
  }

  /** Every violation reported is founded. */
  lemma ReportedIsFounded(graph: Graph, boundaries: seq<Boundary>, found: seq<Violation>, violations: seq<Violation>,
                          v: Violation)
    requires Covers(graph, boundaries, found, Everywhere()) && multiset(violations) == multiset(found)
    requires v in violations
    ensures exists b <- boundaries :: Founded(graph, b, v)
  {
    var origins: seq<Site> :| Collected(graph, boundaries, found, origins, Everywhere());
    assert v in multiset(found);
    var i :| 0 <= i < |found| && found[i] == v;
    DescribedIsFounded(graph, boundaries, v, origins[i]);
    assert boundaries[origins[i].boundary] in boundaries;
  }

  /** Every static read of a variable under a forbidden prefix, by a module reached from the boundary, is reported. */
  lemma ForbiddenIsReported(graph: Graph, boundaries: seq<Boundary>, found: seq<Violation>, violations: seq<Violation>,
                            b: Boundary, m: Module, name: string, prefix: string)
    requires Covers(graph, boundaries, found, Everywhere()) && multiset(violations) == multiset(found)
    requires b in boundaries && b.root in graph && Reaches(graph, b.root, m) && Reads(graph, m, name)
    requires prefix in b.forbiddenPrefixes && exists rest :: name == prefix + rest
    ensures exists v <- violations :: v.boundary == b.root && v.siteModule == m && v.envVar == name
  {
    var k, r := SiteOf(graph, boundaries, b, m, name, prefix);
    SiteIsFound(graph, boundaries, found, Site(k, m, r));
    var v :| v in found && Describes(graph, boundaries, v, Site(k, m, r));
    assert v in multiset(violations);
  }

  lemma SiteOf(graph: Graph, boundaries: seq<Boundary>, b: Boundary, m: Module, name: string, prefix: string)
    returns (k: nat, r: nat)
    requires b in boundaries && b.root in graph && Reaches(graph, b.root, m) && Reads(graph, m, name)
    requires prefix in b.forbiddenPrefixes && exists rest :: name == prefix + rest
    ensures IsSite(graph, boundaries, Site(k, m, r)) && boundaries[k] == b
    ensures graph[m].envReads[r].name == Some(name)
  {
    k :| 0 <= k < |boundaries| && boundaries[k] == b;
    var read :| read in graph[m].envReads && read.name == Some(name);
    r :| 0 <= r < |graph[m].envReads| && graph[m].envReads[r] == read;
    StartsWithIff(name, prefix);
  }

  lemma SiteIsFound(graph: Graph, boundaries: seq<Boundary>, found: seq<Violation>, site: Site)
    requires Covers(graph, boundaries, found, Everywhere()) && IsSite(graph, boundaries, site)
    ensures exists v <- found :: Describes(graph, boundaries, v, site)
  {
    var origins: seq<Site> :| Collected(graph, boundaries, found, origins, Everywhere());
    var i :| 0 <= i < |origins| && origins[i] == site;
    assert found[i] in found;
  }

  /** The report is ordered by boundary, then by variable, then by module. */
  lemma ReportIsOrdered(violations: seq<Violation>, i: nat, j: nat)
    requires SortedBy(violations, KeyLe) && i < j < |violations|
    ensures var (x, y) := (violations[i], violations[j]);
            && StrLe(x.boundary, y.boundary)
            && (x.boundary == y.boundary ==> StrLe(x.envVar, y.envVar))
            && (x.boundary == y.boundary && x.envVar == y.envVar ==> StrLe(x.siteModule, y.siteModule))
  {
    assert KeyLe(violations[i], violations[j]);
    StrLeTotal(violations[i].boundary, violations[i].boundary);
    StrLeTotal(violations[i].envVar, violations[i].envVar);
  }
}
