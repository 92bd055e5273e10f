/**
  The import graph of a code base: depth-first search for circular imports, the marking built
  on it, the worklist that collects impacted files, and the stored-state updates.

  A Python dict keeps insertion order, so the class holds the keys (`order`) beside the map.
  File paths are strings; resolved import lists are the starting point.
*/
module ImportGraph {
  import opened Sequences
  import opened TextOrder

  type File = string

  datatype Node = Node(imports: seq<File>, importedBy: seq<File>, isCircular: bool)

  type Graph = map<File, Node>

  // ---- the graph-theoretic vocabulary ---------------------------------------------------

  /** `u` imports `v`, and both are known files. */
  ghost predicate Edge(g: Graph, u: File, v: File) {
    u in g && v in g && v in g[u].imports
  }

  ghost predicate Walk(g: Graph, p: seq<File>) {
    forall i :: 0 <= i < |p| - 1 ==> Edge(g, p[i], p[i + 1])
  }

  /** A closed walk of at least one edge; `[f, f]` is a self-import. */
  ghost predicate Cycle(g: Graph, c: seq<File>) {
    |c| >= 2 && c[0] == c[|c| - 1] && Walk(g, c)
  }

  ghost predicate SimpleCycle(g: Graph, c: seq<File>) {
    Cycle(g, c) && NoDup(c[..|c| - 1])
  }

  /** Some reported cycle ends with the edge from `u` back to `v`. */
  ghost predicate Closes(cycles: seq<seq<File>>, u: File, v: File) {
    exists c :: c in cycles && |c| >= 2 && c[|c| - 2] == u && c[|c| - 1] == v
  }

  // ---- depth-first search ---------------------------------------------------------------

  /** The four variables that the nested function `dfs` shares with its caller. */
  datatype Search = Search(visited: set<File>, recStack: set<File>, path: seq<File>,
                           cycles: seq<seq<File>>)

  const EMPTY_SEARCH := Search({}, {}, [], [])

  ghost predicate Coherent(g: Graph, s: Search) {
    && s.recStack == Elements(s.path)
    && s.recStack <= s.visited <= g.Keys
    && NoDup(s.path)
  }

  function Enter(u: File, s: Search): Search {
    s.(visited := s.visited + {u}, recStack := s.recStack + {u}, path := s.path + [u])
  }

  function Leave(u: File, s: Search): Search
    requires s.path != []
  {
    s.(path := s.path[..|s.path| - 1], recStack := s.recStack - {u})
  }

  function Report(n: File, s: Search): Search
    requires n in s.path
  {
    s.(cycles := s.cycles + [s.path[IndexOf(s.path, n)..] + [n]])
  }

  function Visit(g: Graph, u: File, s: Search): (r: Search)
    requires Coherent(g, s) && u in g && u !in s.visited
    ensures Coherent(g, r) && r.path == s.path && r.recStack == s.recStack
    ensures s.visited + {u} <= r.visited && s.cycles <= r.cycles
    decreases g.Keys - s.visited, 0
  {
    var r := Scan(g, u, g[u].imports, Enter(u, s));
    Leave(u, r)
  }

  function Scan(g: Graph, u: File, ns: seq<File>, s: Search): (r: Search)
    requires Coherent(g, s)
    ensures Coherent(g, r) && r.path == s.path && r.recStack == s.recStack
    ensures s.visited <= r.visited && s.cycles <= r.cycles
    decreases g.Keys - s.visited, 1 + |ns|
  {
    if ns == [] then s
    else Scan(g, u, ns[1..], ScanOne(g, ns[0], s))
  }

  function ScanOne(g: Graph, n: File, s: Search): (r: Search)
    requires Coherent(g, s)
    ensures Coherent(g, r) && r.path == s.path && r.recStack == s.recStack
    ensures s.visited <= r.visited && s.cycles <= r.cycles
    decreases g.Keys - s.visited, 1
  {
    if n !in g then s
    else if n !in s.visited then Visit(g, n, s)
    else if n in s.recStack then Report(n, s)
    else s
  }

  function SearchFrom(g: Graph, roots: seq<File>, s: Search): (r: Search)
    requires Coherent(g, s) && Elements(roots) <= g.Keys
    ensures Coherent(g, r) && r.path == s.path && r.recStack == s.recStack
    ensures s.visited <= r.visited && s.cycles <= r.cycles
    decreases |roots|
  {
    if roots == [] then s
    else SearchFrom(g, roots[1..], if roots[0] in s.visited then s else Visit(g, roots[0], s))
  }

  function DetectCycles(g: Graph, order: seq<File>): seq<seq<File>>
    requires Elements(order) == g.Keys
  {
    SearchFrom(g, order, EMPTY_SEARCH).cycles
  }

  // ---- soundness: what is reported is a simple cycle --------------------------------------

  ghost predicate AllSimple(g: Graph, cycles: seq<seq<File>>) {
    forall c :: c in cycles ==> SimpleCycle(g, c)
  }

  lemma ReportedIsSimple(g: Graph, n: File, s: Search)
    requires Coherent(g, s) && Walk(g, s.path) && n in s.path
    requires Edge(g, s.path[|s.path| - 1], n)
    requires AllSimple(g, s.cycles)
    ensures AllSimple(g, Report(n, s).cycles)
  {
    var k := IndexOf(s.path, n);
    var c := s.path[k..] + [n];
    ClosedTail(g, s.path, k);
    assert c[..|c| - 1] == s.path[k..];
  }

  /** A tail of a walk whose end imports its start closes to a cycle. */
  lemma ClosedTail(g: Graph, path: seq<File>, k: nat)
    requires Walk(g, path) && k < |path| && Edge(g, path[|path| - 1], path[k])
    ensures Cycle(g, path[k..] + [path[k]])
  {
    var c := path[k..] + [path[k]];
    assert forall i :: 0 <= i < |c| - 1 ==> c[i] == path[k + i];
    assert c[|c| - 2] == path[|path| - 1];
  }

  lemma {:induction false} VisitSound(g: Graph, u: File, s: Search)
    requires Coherent(g, s) && u in g && u !in s.visited
    requires Walk(g, s.path) && (s.path == [] || Edge(g, s.path[|s.path| - 1], u))
    requires AllSimple(g, s.cycles)
    ensures AllSimple(g, Visit(g, u, s).cycles)
    decreases g.Keys - s.visited, 0
  {
    ScanSound(g, u, g[u].imports, Enter(u, s));
  }

  lemma {:induction false} ScanSound(g: Graph, u: File, ns: seq<File>, s: Search)
    requires Coherent(g, s) && Walk(g, s.path) && s.path != [] && s.path[|s.path| - 1] == u
    requires u in g && forall n :: n in ns ==> n in g[u].imports
    requires AllSimple(g, s.cycles)
    ensures AllSimple(g, Scan(g, u, ns, s).cycles)
    decreases g.Keys - s.visited, 1 + |ns|
  {
    if ns == [] {
    } else {
      var n := ns[0];
      if n in g {
        assert Edge(g, u, n);
        if n !in s.visited {
          VisitSound(g, n, s);
        } else if n in s.recStack {
          ReportedIsSimple(g, n, s);
        }
      }
      ScanSound(g, u, ns[1..], ScanOne(g, n, s));
    }
  }

  lemma {:induction false} SearchSound(g: Graph, roots: seq<File>, s: Search)
    requires Coherent(g, s) && Elements(roots) <= g.Keys && s.path == [] && AllSimple(g, s.cycles)
    ensures AllSimple(g, SearchFrom(g, roots, s).cycles)
    decreases |roots|
  {
    if roots == [] {
    } else {
      if roots[0] !in s.visited {
        VisitSound(g, roots[0], s);
      }
      SearchSound(g, roots[1..], if roots[0] in s.visited then s else Visit(g, roots[0], s));
    }
  }

  // ---- completeness: the order in which files are finished --------------------------------

  /**
    `fin` lists the finished files in finishing order: every import of a finished file is
    either finished earlier or is the closing edge of a reported cycle.
  */
  ghost predicate Finished(g: Graph, s: Search, fin: seq<File>) {
    && NoDup(fin)
    && Elements(fin) == s.visited - s.recStack
    && forall i, v :: 0 <= i < |fin| && Edge(g, fin[i], v) ==> v in fin[..i] || Closes(s.cycles, fin[i], v)
  }

  lemma ClosesMonotone(a: seq<seq<File>>, b: seq<seq<File>>, u: File, v: File)
    requires a <= b && Closes(a, u, v)
    ensures Closes(b, u, v)
  {
    var c :| c in a && |c| >= 2 && c[|c| - 2] == u && c[|c| - 1] == v;
    assert c in b;
  }

  lemma FinishOne(g: Graph, u: File, s: Search, fin: seq<File>)
    requires Coherent(g, s) && Finished(g, s, fin)
    requires s.path != [] && s.path[|s.path| - 1] == u
    requires forall v :: Edge(g, u, v) ==> v in fin || Closes(s.cycles, u, v)
    ensures Finished(g, Leave(u, s), fin + [u])
  {
    var fin' := fin + [u];
    assert u in s.recStack && u !in Elements(fin);
    assert Elements(fin') == s.visited - Leave(u, s).recStack by {
      forall x
        ensures x in Elements(fin') <==> x in s.visited - Leave(u, s).recStack
      {
        assert x in Elements(fin) <==> x in s.visited - s.recStack;
        assert x in fin' <==> x in fin || x == u;
      }
    }
    assert fin'[..|fin|] == fin;
    forall i, v | 0 <= i < |fin'| && Edge(g, fin'[i], v)
      ensures v in fin'[..i] || Closes(s.cycles, fin'[i], v)
    {
      if i < |fin| {
        assert fin'[i] == fin[i] && fin'[..i] == fin[..i];
      }
    }
  }

  lemma {:induction false} VisitFinishes(g: Graph, u: File, s: Search, fin: seq<File>) returns (fin': seq<File>)
    requires Coherent(g, s) && u in g && u !in s.visited
    requires Finished(g, s, fin)
    ensures Finished(g, Visit(g, u, s), fin') && u in fin'
    ensures fin <= fin'
    decreases g.Keys - s.visited, 0
  {
    var s1 := Enter(u, s);
    assert s1.visited - s1.recStack == s.visited - s.recStack;
    fin' := ScanFinishes(g, u, g[u].imports, s1, fin);
    var s2 := Scan(g, u, g[u].imports, s1);
    FinishOne(g, u, s2, fin');
    fin' := fin' + [u];
  }

  lemma {:induction false} ScanFinishes(g: Graph, u: File, ns: seq<File>, s: Search, fin: seq<File>)
    returns (fin': seq<File>)
    requires Coherent(g, s) && s.path != [] && s.path[|s.path| - 1] == u
    requires Finished(g, s, fin)
    ensures Finished(g, Scan(g, u, ns, s), fin')
    ensures fin <= fin'
    ensures forall n :: n in ns && n in g ==> n in fin' || Closes(Scan(g, u, ns, s).cycles, u, n)
    decreases g.Keys - s.visited, 1 + |ns|
  {
    if ns == [] {
      fin' := fin;
    } else {
      var n := ns[0];
      var s1 := ScanOne(g, n, s);
      var fin1 := fin;
      if n in g {
        if n !in s.visited {
          fin1 := VisitFinishes(g, n, s, fin);
        } else if n in s.recStack {
          ReportCloses(g, n, s);
          FinishedMonotone(g, s, s1, fin);
        } else {
          assert n in Elements(fin);
        }
      }
      fin' := ScanFinishes(g, u, ns[1..], s1, fin1);
      if n in g && Closes(s1.cycles, u, n) {
        ClosesMonotone(s1.cycles, Scan(g, u, ns, s).cycles, u, n);
      }
    }
  }

  lemma ReportCloses(g: Graph, n: File, s: Search)
    requires Coherent(g, s) && n in s.path
    ensures Closes(Report(n, s).cycles, s.path[|s.path| - 1], n)
  {
    var c := s.path[IndexOf(s.path, n)..] + [n];
    assert c in Report(n, s).cycles;
    assert c[|c| - 2] == s.path[|s.path| - 1];
  }

  lemma FinishedMonotone(g: Graph, s: Search, s': Search, fin: seq<File>)
    requires Finished(g, s, fin) && s'.visited == s.visited && s'.recStack == s.recStack
    requires s.cycles <= s'.cycles
    ensures Finished(g, s', fin)
  {
    forall i, v | 0 <= i < |fin| && Edge(g, fin[i], v)
      ensures v in fin[..i] || Closes(s'.cycles, fin[i], v)
    {
      if Closes(s.cycles, fin[i], v) {
        ClosesMonotone(s.cycles, s'.cycles, fin[i], v);
      }
    }
  }

  lemma {:induction false} SearchFinishes(g: Graph, roots: seq<File>, s: Search, fin: seq<File>)
    returns (fin': seq<File>)
    requires Coherent(g, s) && Elements(roots) <= g.Keys && s.path == []
    requires Finished(g, s, fin)
    ensures Finished(g, SearchFrom(g, roots, s), fin')
    ensures Elements(roots) <= SearchFrom(g, roots, s).visited
    decreases |roots|
  {
    if roots == [] {
      fin' := fin;
    } else {
      var fin1 := fin;
      if roots[0] !in s.visited {
        fin1 := VisitFinishes(g, roots[0], s, fin);
      }
      fin' := SearchFinishes(g, roots[1..], if roots[0] in s.visited then s else Visit(g, roots[0], s), fin1);
    }
  }

  /** Following unreported edges only ever leads to files finished earlier. */
  lemma {:induction false} UnreportedDescends(g: Graph, s: Search, fin: seq<File>, c: seq<File>, k: nat)
    requires Finished(g, s, fin) && |c| >= 1 && Walk(g, c) && c[0] in fin && k < |c|
    requires forall i :: 0 <= i < k ==> !Closes(s.cycles, c[i], c[i + 1])
    ensures c[k] in fin && IndexOf(fin, c[k]) <= IndexOf(fin, c[0]) - k
  {
    if k == 0 {
    } else {
      UnreportedDescends(g, s, fin, c, k - 1);
      var i := IndexOf(fin, c[k - 1]);
      assert Edge(g, fin[i], c[k - 1 + 1]);
      assert c[k] in fin[..i];
      IndexInPrefix(fin, i, c[k]);
    }
  }

  lemma {:induction false} IndexInPrefix(s: seq<File>, i: nat, x: File)
    requires i <= |s| && x in s[..i]
    ensures x in s && IndexOf(s, x) < i
  {
    if s[0] == x {
    } else {
      assert s[..i][1..] == s[1..][..i - 1];
      IndexInPrefix(s[1..], i - 1, x);
    }
  }

  // ---- the theorems about detect_circular_dependencies -------------------------------------

  /** Every reported list is a closed simple walk along imports between known files. */
  lemma DetectSound(g: Graph, order: seq<File>)
    requires Elements(order) == g.Keys
    ensures AllSimple(g, DetectCycles(g, order))
  {
    SearchSound(g, order, EMPTY_SEARCH);
  }

  /**
    Every import cycle of the graph, simple or not, runs along the closing edge of a reported
    cycle: deleting the reported back edges makes the graph acyclic.
  */
  lemma DetectCutsEveryCycle(g: Graph, order: seq<File>, c: seq<File>)
    requires Elements(order) == g.Keys && Cycle(g, c)
    ensures exists i :: 0 <= i < |c| - 1 && Closes(DetectCycles(g, order), c[i], c[i + 1])
  {
    var s := SearchFrom(g, order, EMPTY_SEARCH);
    var fin := SearchFinishes(g, order, EMPTY_SEARCH, []);
    if forall i :: 0 <= i < |c| - 1 ==> !Closes(s.cycles, c[i], c[i + 1]) {
      assert Edge(g, c[0], c[1]);
      assert c[0] in Elements(fin);
      UnreportedDescends(g, s, fin, c, |c| - 1);
      assert false;
    }
  }

  /** The answer is empty exactly when the import graph has no cycle, self-imports included. */
  lemma DetectEmptyIffAcyclic(g: Graph, order: seq<File>)
    requires Elements(order) == g.Keys
    ensures DetectCycles(g, order) == [] <==> !exists c :: Cycle(g, c)
  {
    var cycles := DetectCycles(g, order);
    DetectSound(g, order);
    if cycles != [] {
      assert cycles[0] in cycles;
      assert Cycle(g, cycles[0]);
    }
    forall c | Cycle(g, c)
      ensures cycles != []
    {
      DetectCutsEveryCycle(g, order, c);
    }
  }

  // ---- marking ---------------------------------------------------------------------------

  function Marked(g: Graph, cycles: seq<seq<File>>): Graph {
    map f | f in g :: g[f].(isCircular := g[f].isCircular || exists c :: c in cycles && f in c)
  }

  /**
    After marking: every newly marked file lies on an import cycle, every import cycle has two
    consecutive files that are both marked, and no mark is taken back. Nothing but the flag changes.
  */
  lemma MarkingMeansCircular(g: Graph, order: seq<File>)
    requires Elements(order) == g.Keys
    ensures var m := Marked(g, DetectCycles(g, order));
      && m.Keys == g.Keys
      && (forall f :: f in m ==> m[f].imports == g[f].imports && m[f].importedBy == g[f].importedBy)
      && (forall f :: f in m && g[f].isCircular ==> m[f].isCircular)
      && (forall f :: f in m && m[f].isCircular && !g[f].isCircular ==> exists c :: Cycle(g, c) && f in c)
      && (forall c :: Cycle(g, c) ==>
            exists i :: 0 <= i < |c| - 1 && c[i] in m && c[i + 1] in m && m[c[i]].isCircular && m[c[i + 1]].isCircular)
  {
    var cycles := DetectCycles(g, order);
    var m := Marked(g, cycles);
    DetectSound(g, order);
    forall f | f in m && m[f].isCircular && !g[f].isCircular
      ensures exists c :: Cycle(g, c) && f in c
    {
      MarkedLiesOnCycle(g, cycles, f);
    }
    forall c | Cycle(g, c)
      ensures exists i :: 0 <= i < |c| - 1 && c[i] in m && c[i + 1] in m && m[c[i]].isCircular && m[c[i + 1]].isCircular
    {
      DetectCutsEveryCycle(g, order, c);
      var i :| 0 <= i < |c| - 1 && Closes(cycles, c[i], c[i + 1]);
      assert Edge(g, c[i], c[i + 1]);
      ClosingEdgeIsMarked(g, cycles, c[i], c[i + 1]);
    }
  }

  lemma MarkedLiesOnCycle(g: Graph, cycles: seq<seq<File>>, f: File)
    requires AllSimple(g, cycles) && f in g && !g[f].isCircular && Marked(g, cycles)[f].isCircular
    ensures exists c :: Cycle(g, c) && f in c
  {
    var c :| c in cycles && f in c;
    assert SimpleCycle(g, c);
  }

  lemma ClosingEdgeIsMarked(g: Graph, cycles: seq<seq<File>>, u: File, v: File)
    requires u in g && v in g && Closes(cycles, u, v)
    ensures Marked(g, cycles)[u].isCircular && Marked(g, cycles)[v].isCircular
  {
    var r :| r in cycles && |r| >= 2 && r[|r| - 2] == u && r[|r| - 1] == v;
    assert u in r && v in r;
  }

  // ---- impact analysis -------------------------------------------------------------------

  /** `v` is listed as a dependent of the known file `u`. */
  ghost predicate Dependent(g: Graph, u: File, v: File) {
    u in g && v in g[u].importedBy
  }

  ghost predicate ImpactPath(g: Graph, changed: set<File>, p: seq<File>, f: File) {
    && p != [] && p[0] in changed && p[|p| - 1] == f
    && forall i :: 0 <= i < |p| - 1 ==> Dependent(g, p[i], p[i + 1])
  }

  /** `f` is reached from a changed file along stored `imported_by` entries, in any number of steps. */
  ghost predicate Impacts(g: Graph, changed: set<File>, f: File) {
    exists p :: ImpactPath(g, changed, p, f)
  }

  ghost function Universe(g: Graph, changed: set<File>): set<File> {
    changed + set u, f | u in g && f in g[u].importedBy :: f
  }

  ghost function ImpactSet(g: Graph, changed: set<File>): set<File> {
    set f | f in Universe(g, changed) && Impacts(g, changed, f)
  }

  ghost predicate ClosedUnderDependents(g: Graph, s: set<File>) {
    forall u, v :: u in s && Dependent(g, u, v) ==> v in s
  }

  /** Closed, except for the dependents of the files still in `waiting`. */
  ghost predicate ClosedExcept(g: Graph, s: set<File>, waiting: set<File>) {
    forall u, v :: u in s && Dependent(g, u, v) && u !in waiting ==> v in s
  }

  lemma ImpactStep(g: Graph, changed: set<File>, u: File, v: File)
    requires Impacts(g, changed, u) && Dependent(g, u, v)
    ensures Impacts(g, changed, v)
  {
    var p :| ImpactPath(g, changed, p, u);
    assert ImpactPath(g, changed, p + [v], v);
  }

  lemma ImpactStart(g: Graph, changed: set<File>, f: File)
    requires f in changed
    ensures Impacts(g, changed, f)
  {
    assert ImpactPath(g, changed, [f], f);
  }

  /** A set that holds the changed files and is closed under dependents holds every impacted file. */
  lemma {:induction false} ClosedHoldsPath(g: Graph, changed: set<File>, closed: set<File>, p: seq<File>, f: File)
    requires changed <= closed && ClosedUnderDependents(g, closed)
    requires ImpactPath(g, changed, p, f)
    ensures f in closed
    decreases |p|
  {
    if |p| <= 1 {
    } else {
      var q := p[..|p| - 1];
      ClosedHoldsPath(g, changed, closed, q, q[|q| - 1]);
      assert Dependent(g, p[|p| - 2], p[|p| - 1]);
    }
  }

  lemma ImpactSetExact(g: Graph, changed: set<File>, f: File)
    ensures f in ImpactSet(g, changed) <==> Impacts(g, changed, f)
  {
    if Impacts(g, changed, f) {
      var p :| ImpactPath(g, changed, p, f);
      ClosedHoldsPath(g, changed, Universe(g, changed), p, f);
    }
  }

  /** The impact set holds the changed files and is closed under dependents ... */
  lemma ImpactSetClosed(g: Graph, changed: set<File>)
    ensures changed <= ImpactSet(g, changed) && ClosedUnderDependents(g, ImpactSet(g, changed))
  {
    forall f | f in changed
      ensures f in ImpactSet(g, changed)
    {
      ImpactStart(g, changed, f);
    }
    forall u, v | u in ImpactSet(g, changed) && Dependent(g, u, v)
      ensures v in ImpactSet(g, changed)
    {
      ImpactStep(g, changed, u, v);
      ImpactSetExact(g, changed, v);
    }
  }

  /** ... and it is the least such set. */
  lemma ImpactSetLeast(g: Graph, changed: set<File>, closed: set<File>)
    requires changed <= closed && ClosedUnderDependents(g, closed)
    ensures ImpactSet(g, changed) <= closed
  {
    forall f | f in ImpactSet(g, changed)
      ensures f in closed
    {
      var p :| ImpactPath(g, changed, p, f);
      ClosedHoldsPath(g, changed, closed, p, f);
    }
  }

  lemma ImpactMonotone(g: Graph, a: set<File>, b: set<File>)
    requires a <= b
    ensures ImpactSet(g, a) <= ImpactSet(g, b)
  {
    ImpactSetClosed(g, b);
    ImpactSetLeast(g, a, ImpactSet(g, b));
  }

  lemma ImpactIdempotent(g: Graph, changed: set<File>)
    ensures ImpactSet(g, ImpactSet(g, changed)) == ImpactSet(g, changed)
  {
    var impacted := ImpactSet(g, changed);
    ImpactSetClosed(g, changed);
    ImpactSetClosed(g, impacted);
    ImpactSetLeast(g, impacted, impacted);
  }

  /** The answer is determined: the order of the changed files and repetitions among them do not matter. */
  lemma ImpactListDetermined(g: Graph, a: seq<File>, b: seq<File>, r: seq<File>, r': seq<File>)
    requires Elements(a) == Elements(b)
    requires Ascending(r) && Elements(r) == ImpactSet(g, Elements(a))
    requires Ascending(r') && Elements(r') == ImpactSet(g, Elements(b))
    ensures r == r'
  {
    AscendingUnique(r, r');
  }

  // ---- stored-state updates ----------------------------------------------------------------

  const EMPTY_NODE := Node([], [], false)

  /** What `add_file` does to one node once the imports of `file` are set. */
  function BackReference(file: File, n: Node): Node {
    if file in n.imports && file !in n.importedBy then n.(importedBy := n.importedBy + [file]) else n
  }

  function WithImports(g: Graph, file: File, imports: seq<File>): Graph {
    g[file := (if file in g then g[file] else EMPTY_NODE).(imports := imports)]
  }

  function WithFile(g: Graph, file: File, imports: seq<File>): Graph {
    var g1 := WithImports(g, file, imports);
    map f | f in g1 :: BackReference(file, g1[f])
  }

  /** Python's `list.remove`: the first occurrence only. */
  function RemoveFirst(s: seq<File>, x: File): (r: seq<File>)
    ensures forall y :: y != x ==> (y in r <==> y in s)
    ensures forall y :: y in r ==> y in s
  {
    if s == [] then []
    else if s[0] == x then s[1..]
    else [s[0]] + RemoveFirst(s[1..], x)
  }

  function Forget(file: File, n: Node): Node {
    n.(imports := RemoveFirst(n.imports, file), importedBy := RemoveFirst(n.importedBy, file))
  }

  function WithoutFile(g: Graph, file: File): Graph {
    if file !in g then g
    else map f | f in g && f != file :: Forget(file, g[f])
  }

  /** `after` is `before` without the first occurrence of `x`, if there is one; everything else keeps its order. */
  ghost predicate Dropped(before: seq<File>, after: seq<File>, x: File) {
    || (x !in before && after == before)
    || exists k :: 0 <= k < |before| && before[k] == x && x !in before[..k]
                   && after == before[..k] + before[k + 1..]
  }

  lemma {:induction false} RemoveFirstAt(s: seq<File>, x: File, k: nat)
    requires k < |s| && s[k] == x && x !in s[..k]
    ensures RemoveFirst(s, x) == s[..k] + s[k + 1..]
    decreases k
  {
    if k == 0 {
    } else {
      assert s[0] in s[..k] && s[1..][..k - 1] == s[..k][1..];
      RemoveFirstAt(s[1..], x, k - 1);
      assert s[..k] == [s[0]] + s[1..][..k - 1] && s[k + 1..] == s[1..][k..];
    }
  }

  lemma {:induction false} RemoveFirstNone(s: seq<File>, x: File)
    requires x !in s
    ensures RemoveFirst(s, x) == s
  {
    if s == [] {
    } else {
      RemoveFirstNone(s[1..], x);
    }
  }

  lemma RemoveFirstDrops(s: seq<File>, x: File)
    ensures Dropped(s, RemoveFirst(s, x), x)
  {
    if x in s {
      RemoveFirstAt(s, x, IndexOf(s, x));
    } else {
      RemoveFirstNone(s, x);
    }
  }

  /** What `remove_file` does to the nodes that stay: both of their lists lose the first entry for the file. */
  lemma RemoveFileNode(g: Graph, file: File, n: File)
    ensures var r := WithoutFile(g, file);
      && r.Keys == g.Keys - {file}
      && (n in r ==>
            && r[n].isCircular == g[n].isCircular
            && if file in g
               then Dropped(g[n].imports, r[n].imports, file) && Dropped(g[n].importedBy, r[n].importedBy, file)
               else r[n] == g[n])
  {
    if n in g {
      RemoveFirstDrops(g[n].imports, file);
      RemoveFirstDrops(g[n].importedBy, file);
    }
  }

  /** No file is listed twice as a dependent of another. */
  ghost predicate NoRepeats(g: Graph) {
    forall f :: f in g ==> NoDup(g[f].importedBy)
  }

  lemma DroppedNoDup(before: seq<File>, after: seq<File>, x: File)
    requires Dropped(before, after, x) && NoDup(before)
    ensures NoDup(after) && forall y :: y in after <==> y in before && y != x
  {
    if x in before {
      var k :| 0 <= k < |before| && before[k] == x && after == before[..k] + before[k + 1..];
      DropAt(before, k);
      assert forall y :: y in after <==> y in Elements(after);
      assert forall y :: y in before <==> y in Elements(before);
    }
  }

  /** Removing a file leaves exactly the stored back references among the other files. */
  lemma RemoveFileReferences(g: Graph, file: File, u: File, v: File)
    requires file in g && NoRepeats(g)
    ensures Dependent(WithoutFile(g, file), u, v) <==> Dependent(g, u, v) && u != file && v != file
  {
    RemoveFileNode(g, file, u);
    if u in g && u != file {
      DroppedNoDup(g[u].importedBy, WithoutFile(g, file)[u].importedBy, file);
    }
  }

  lemma RemoveFileNoRepeats(g: Graph, file: File)
    requires NoRepeats(g)
    ensures NoRepeats(WithoutFile(g, file))
  {
    var r := WithoutFile(g, file);
    forall f | f in r
      ensures NoDup(r[f].importedBy)
    {
      RemoveFileNode(g, file, f);
      if file in g {
        DroppedNoDup(g[f].importedBy, r[f].importedBy, file);
      }
    }
  }

  /**
    After a removal, the impacted files are the changed ones and those reached along a path that
    avoids the file; so the file itself is impacted only if it is among the changed files.
  */
  lemma RemoveFileImpact(g: Graph, file: File, changed: set<File>, f: File)
    requires file in g && NoRepeats(g)
    ensures f in ImpactSet(WithoutFile(g, file), changed) <==>
            f in changed || exists p :: ImpactPath(g, changed, p, f) && file !in p
    ensures file in ImpactSet(WithoutFile(g, file), changed) <==> file in changed
  {
    AvoidingPath(g, file, changed, f);
    AvoidingPath(g, file, changed, file);
  }

  lemma AvoidingPath(g: Graph, file: File, changed: set<File>, f: File)
    requires file in g && NoRepeats(g)
    ensures f in ImpactSet(WithoutFile(g, file), changed) <==>
            f in changed || exists p :: ImpactPath(g, changed, p, f) && file !in p
  {
    var r := WithoutFile(g, file);
    ImpactSetExact(r, changed, f);
    if f in changed {
      ImpactStart(r, changed, f);
    } else if Impacts(r, changed, f) {
      var p :| ImpactPath(r, changed, p, f);
      PathStays(g, file, changed, p, f);
    } else if exists p :: ImpactPath(g, changed, p, f) && file !in p {
      var p :| ImpactPath(g, changed, p, f) && file !in p;
      forall i | 0 <= i < |p| - 1
        ensures Dependent(r, p[i], p[i + 1])
      {
        assert Dependent(g, p[i], p[i + 1]) && p[i] in p && p[i + 1] in p;
        RemoveFileReferences(g, file, p[i], p[i + 1]);
      }
      assert ImpactPath(r, changed, p, f);
    }
  }

  lemma PathStays(g: Graph, file: File, changed: set<File>, p: seq<File>, f: File)
    requires file in g && NoRepeats(g)
    requires ImpactPath(WithoutFile(g, file), changed, p, f) && |p| > 1
    ensures ImpactPath(g, changed, p, f) && file !in p
  {
    var r := WithoutFile(g, file);
    forall i | 0 <= i < |p| - 1
      ensures Dependent(g, p[i], p[i + 1])
    {
      assert Dependent(r, p[i], p[i + 1]);
      RemoveFileReferences(g, file, p[i], p[i + 1]);
    }
    forall i | 0 <= i < |p|
      ensures p[i] != file
    {
      var k := if i == 0 then 0 else i - 1;
      assert Dependent(r, p[k], p[k + 1]);
      RemoveFileReferences(g, file, p[k], p[k + 1]);
    }
  }

  /** Removing a file leaves exactly the import relation among the other files, even with repeated imports. */
  lemma RemoveFileIsInducedSubgraph(g: Graph, file: File, u: File, v: File)
    requires file in g
    ensures Edge(WithoutFile(g, file), u, v) <==> Edge(g, u, v) && u != file && v != file
  {
  }

  /** Hence removing a file never creates a cycle, and removes precisely the cycles through it. */
  lemma RemoveFileCycles(g: Graph, file: File, c: seq<File>)
    requires file in g
    ensures Cycle(WithoutFile(g, file), c) <==> Cycle(g, c) && file !in c
  {
    var r := WithoutFile(g, file);
    if Cycle(r, c) {
      forall i | 0 <= i < |c| - 1
        ensures Edge(g, c[i], c[i + 1]) && c[i] != file
      {
        assert Edge(r, c[i], c[i + 1]);
        RemoveFileIsInducedSubgraph(g, file, c[i], c[i + 1]);
      }
      assert c[|c| - 1] == c[0] && c[0] != file;
    }
    if Cycle(g, c) && file !in c {
      forall i | 0 <= i < |c| - 1
        ensures Edge(r, c[i], c[i + 1])
      {
        assert Edge(g, c[i], c[i + 1]);
        RemoveFileIsInducedSubgraph(g, file, c[i], c[i + 1]);
      }
    }
  }

  // ---- a whole build -----------------------------------------------------------------------

  /** One readable file and its resolved imports. */
  datatype Source = Source(file: File, imports: seq<File>)

  /** The sources of a build: each known file at most once. */
  predicate BuildInput(files: set<File>, sources: seq<Source>) {
    && (forall i :: 0 <= i < |sources| ==> sources[i].file in files)
    && (forall i, j :: 0 <= i < j < |sources| ==> sources[i].file != sources[j].file)
  }

  /** The second pass of `build`: one `add_file` for each readable file, in order. */
  function AddAll(g: Graph, sources: seq<Source>): (r: Graph)
    ensures (forall i :: 0 <= i < |sources| ==> sources[i].file in g) ==> r.Keys == g.Keys
  {
    if sources == [] then g
    else
      var last := sources[|sources| - 1];
      WithFile(AddAll(g, sources[..|sources| - 1]), last.file, last.imports)
  }

  function Build(files: set<File>, sources: seq<Source>): (g: Graph)
    requires BuildInput(files, sources)
    ensures g.Keys == files
  {
    AddAll(map f | f in files :: EMPTY_NODE, sources)
  }

  /** `n` was added no later than `f`, and `n` imports `f`. */
  ghost predicate AddedBefore(sources: seq<Source>, n: File, f: File) {
    exists i, j :: 0 <= i <= j < |sources| && sources[i].file == n && sources[j].file == f && f in sources[i].imports
  }

  /** What `add_file` does to one node, the node of a new file included: at most one reference is appended. */
  lemma AddFileNode(g: Graph, file: File, imports: seq<File>, n: File)
    requires n in g || n == file
    ensures var r, before := WithFile(g, file, imports), if n in g then g[n] else Node([], [], false);
      && r.Keys == g.Keys + {file}
      && r[n].imports == (if n == file then imports else before.imports)
      && (forall f :: f in r[n].importedBy <==> f in before.importedBy || (f == file && file in r[n].imports))
      && before.importedBy <= r[n].importedBy
      && (NoDup(before.importedBy) ==> NoDup(r[n].importedBy))
      && r[n].isCircular == before.isCircular
  {
  }

  lemma AddFileNoRepeats(g: Graph, file: File, imports: seq<File>)
    requires NoRepeats(g)
    ensures NoRepeats(WithFile(g, file, imports))
  {
    forall n | n in WithFile(g, file, imports)
      ensures NoDup(WithFile(g, file, imports)[n].importedBy)
    {
      AddFileNode(g, file, imports, n);
    }
  }

  lemma {:induction false} BuildImports(files: set<File>, sources: seq<Source>, n: File)
    requires BuildInput(files, sources) && n in files
    ensures !Build(files, sources)[n].isCircular
    ensures forall i :: 0 <= i < |sources| && sources[i].file == n ==>
            Build(files, sources)[n].imports == sources[i].imports
    ensures (forall i :: 0 <= i < |sources| ==> sources[i].file != n) ==> Build(files, sources)[n].imports == []
  {
    if sources == [] {
    } else {
      var prefix, last := sources[..|sources| - 1], sources[|sources| - 1];
      BuildImports(files, prefix, n);
      assert last.file == sources[|sources| - 1].file;
      AddFileNode(Build(files, prefix), last.file, last.imports, n);
      assert forall i :: 0 <= i < |prefix| ==> prefix[i] == sources[i];
    }
  }

  /**
    What a build stores as back references: `imported_by` of `n` holds the files that `n`
    itself imports and that were added no earlier than `n`.
  */
  lemma {:induction false} BuildBackReferences(files: set<File>, sources: seq<Source>, n: File, f: File)
    requires BuildInput(files, sources) && n in files
    ensures f in Build(files, sources)[n].importedBy <==> AddedBefore(sources, n, f)
  {
    BuildImports(files, sources, n);
    if sources == [] {
    } else {
      var prefix, last := sources[..|sources| - 1], sources[|sources| - 1];
      BuildImports(files, prefix, n);
      BuildBackReferences(files, prefix, n, f);
      assert last.file == sources[|sources| - 1].file;
      AddFileNode(Build(files, prefix), last.file, last.imports, n);
      AddedBeforeLast(files, sources, n, f);
    }
  }

  /** `imported_by` as its name promises: the known files that import this one. */
  ghost predicate InverseStored(g: Graph) {
    forall u, v :: u in g && v in g ==> (u in g[v].importedBy <==> v in g[u].imports)
  }

  /**
    After a build, `imported_by` is the inverse of `imports` exactly when no file imports a
    known file other than itself.
  */
  lemma BuildInverseIff(files: set<File>, sources: seq<Source>)
    requires BuildInput(files, sources)
    ensures InverseStored(Build(files, sources)) <==>
            forall i, v :: 0 <= i < |sources| && v in files && v in sources[i].imports ==> v == sources[i].file
  {
    var g := Build(files, sources);
    if InverseStored(g) {
      forall i, v | 0 <= i < |sources| && v in files && v in sources[i].imports
        ensures v == sources[i].file
      {
        InverseImportsSelf(files, sources, i, v);
      }
    }
    if forall i, v :: 0 <= i < |sources| && v in files && v in sources[i].imports ==> v == sources[i].file {
      forall u, v | u in g && v in g
        ensures u in g[v].importedBy <==> v in g[u].imports
      {
        BuildImports(files, sources, u);
        BuildBackReferences(files, sources, v, u);
        OnlySelfImports(files, sources, u, v);
      }
    }
  }

  /** An import of a known file is its back reference as well, so the importer is added no later, and conversely. */
  lemma InverseImportsSelf(files: set<File>, sources: seq<Source>, i: nat, v: File)
    requires BuildInput(files, sources) && InverseStored(Build(files, sources))
    requires i < |sources| && v in files && v in sources[i].imports
    ensures v == sources[i].file
  {
    var u := sources[i].file;
    BuildImports(files, sources, u);
    assert u in Build(files, sources)[v].importedBy;
    BuildBackReferences(files, sources, v, u);
    var a, b :| 0 <= a <= b < |sources| && sources[a].file == v && sources[b].file == u && u in sources[a].imports;
    BuildImports(files, sources, v);
    assert v in Build(files, sources)[u].importedBy;
    BuildBackReferences(files, sources, u, v);
  }

  lemma OnlySelfImports(files: set<File>, sources: seq<Source>, u: File, v: File)
    requires BuildInput(files, sources) && u in files && v in files
    requires forall i, v :: 0 <= i < |sources| && v in files && v in sources[i].imports ==> v == sources[i].file
    ensures AddedBefore(sources, v, u) <==> v in Build(files, sources)[u].imports
  {
    BuildImports(files, sources, u);
    if AddedBefore(sources, v, u) {
      var a, b :| 0 <= a <= b < |sources| && sources[a].file == v && sources[b].file == u && u in sources[a].imports;
      assert u == v;
    }
    if v in Build(files, sources)[u].imports {
      var i :| 0 <= i < |sources| && sources[i].file == u;
      assert AddedBefore(sources, v, u) by {
        assert 0 <= i <= i < |sources| && sources[i].file == v && sources[i].file == u && u in sources[i].imports;
      }
    }
  }

  /**
    So after a build the impact analysis walks downstream: every file it reports is reached
    from a changed file along imports, not along importers.
  */
  lemma {:induction false} BuildImpactFollowsImports(files: set<File>, sources: seq<Source>, changed: set<File>,
                                                     p: seq<File>, f: File)
    requires BuildInput(files, sources)
    requires ImpactPath(Build(files, sources), changed, p, f)
    ensures forall i :: 0 <= i < |p| - 1 ==> Edge(Build(files, sources), p[i], p[i + 1])
  {
    forall i | 0 <= i < |p| - 1
      ensures Edge(Build(files, sources), p[i], p[i + 1])
    {
      assert Dependent(Build(files, sources), p[i], p[i + 1]);
      BuildBackReferences(files, sources, p[i], p[i + 1]);
      BuildImports(files, sources, p[i]);
    }
  }

  lemma AddedBeforeLast(files: set<File>, sources: seq<Source>, n: File, f: File)
    requires BuildInput(files, sources) && sources != []
    ensures var prefix, last := sources[..|sources| - 1], sources[|sources| - 1];
      AddedBefore(sources, n, f) <==>
        || AddedBefore(prefix, n, f)
        || (f == last.file && exists i :: 0 <= i < |sources| && sources[i].file == n && f in sources[i].imports)
  {
    var prefix, last := sources[..|sources| - 1], sources[|sources| - 1];
    if AddedBefore(prefix, n, f) {
      var i, j :| 0 <= i <= j < |prefix| && prefix[i].file == n && prefix[j].file == f && f in prefix[i].imports;
      assert sources[i].file == n && sources[j].file == f;
    }
    if AddedBefore(sources, n, f) {
      var i, j :| 0 <= i <= j < |sources| && sources[i].file == n && sources[j].file == f && f in sources[i].imports;
      if j < |prefix| {
        assert prefix[i].file == n && prefix[j].file == f;
      }
    }
  }

  /** The witness: `a.py` imports `b.py`, yet a change to `b.py` is reported to impact `b.py` alone. */
  lemma BuildMissesImporter()
    ensures var sources := [Source("a.py", ["b.py"]), Source("b.py", [])];
      && BuildInput({"a.py", "b.py"}, sources)
      && Edge(Build({"a.py", "b.py"}, sources), "a.py", "b.py")
      && ImpactSet(Build({"a.py", "b.py"}, sources), {"b.py"}) == {"b.py"}
  {
    var files, sources := {"a.py", "b.py"}, [Source("a.py", ["b.py"]), Source("b.py", [])];
    var g := Build(files, sources);
    BuildImports(files, sources, "a.py");
    BuildImports(files, sources, "b.py");
    assert sources[0].file == "a.py" && sources[1].file == "b.py";
    assert "b.py" in g["a.py"].imports;
    forall v
      ensures !Dependent(g, "b.py", v)
    {
      BuildBackReferences(files, sources, "b.py", v);
    }
    ImpactSetLeast(g, {"b.py"}, {"b.py"});
    ImpactSetClosed(g, {"b.py"});
  }

  /**
    Marking is not complete. When a imports b and c, and b and c import a and b: c lies on the
    cycle a, c, b, a, but the search reaches b through c only after b is finished, so c stays
    unmarked.
  */
  lemma MarkingMissesAFile(a: File, b: File, c: File)
    requires a != b && b != c && a != c
    ensures var g := Triangle(a, b, c);
      && Elements([a, b, c]) == g.Keys
      && SimpleCycle(g, [a, c, b, a])
      && DetectCycles(g, [a, b, c]) == [[a, b, a]]
      && !Marked(g, DetectCycles(g, [a, b, c]))[c].isCircular
  {
    var g := Triangle(a, b, c);
    TriangleB(a, b, c);
    TriangleC(a, b, c);
    var s1 := Search({a, b}, {a}, [a], [[a, b, a]]);
    var s2 := Search({a, b, c}, {a}, [a], [[a, b, a]]);
    ScanPair(g, a, b, c, Enter(a, EMPTY_SEARCH));
    var s3 := Leave(a, s2);
    assert Visit(g, a, EMPTY_SEARCH) == s3;
    AllVisited(g, [b, c], s3);
    assert [a, b, c][1..] == [b, c];
    assert SearchFrom(g, [a, b, c], EMPTY_SEARCH) == s3;
    assert c !in [a, b, a];
  }

  lemma {:induction false} AllVisited(g: Graph, roots: seq<File>, s: Search)
    requires Coherent(g, s) && Elements(roots) <= s.visited
    ensures SearchFrom(g, roots, s) == s
  {
    if roots == [] {
    } else {
      assert roots[0] in Elements(roots);
      AllVisited(g, roots[1..], s);
    }
  }

  lemma TriangleB(a: File, b: File, c: File)
    requires a != b && b != c && a != c
    ensures Coherent(Triangle(a, b, c), Enter(a, EMPTY_SEARCH))
    ensures Visit(Triangle(a, b, c), b, Enter(a, EMPTY_SEARCH)) == Search({a, b}, {a}, [a], [[a, b, a]])
  {
    var s := Enter(b, Enter(a, EMPTY_SEARCH));
    assert s.path == [a, b] && IndexOf(s.path, a) == 0;
    assert s.path[0..] + [a] == [a, b, a];
    ScanSingle(Triangle(a, b, c), b, a, s);
  }

  lemma TriangleC(a: File, b: File, c: File)
    requires a != b && b != c && a != c
    ensures Coherent(Triangle(a, b, c), Search({a, b}, {a}, [a], [[a, b, a]]))
    ensures Visit(Triangle(a, b, c), c, Search({a, b}, {a}, [a], [[a, b, a]]))
            == Search({a, b, c}, {a}, [a], [[a, b, a]])
  {
    ScanSingle(Triangle(a, b, c), c, b, Enter(c, Search({a, b}, {a}, [a], [[a, b, a]])));
  }

  function Triangle(a: File, b: File, c: File): Graph {
    map[a := Node([b, c], [], false), b := Node([a], [], false), c := Node([b], [], false)]
  }

  lemma ScanPair(g: Graph, u: File, m: File, n: File, s: Search)
    requires Coherent(g, s)
    ensures Scan(g, u, [m, n], s) == ScanOne(g, n, ScanOne(g, m, s))
  {
    assert [m, n][1..] == [n];
    ScanSingle(g, u, n, ScanOne(g, m, s));
  }

  lemma ScanSingle(g: Graph, u: File, n: File, s: Search)
    requires Coherent(g, s)
    ensures Scan(g, u, [n], s) == ScanOne(g, n, s)
  {
    assert [n][1..] == [];
  }

  // ---- the class ---------------------------------------------------------------------------

  /** The captured variables of one run of `detect_circular_dependencies`, changed in place. */
  class CycleSearch {
    const g: Graph
    var visited: set<File>
    var recStack: set<File>
    var path: seq<File>
    var cycles: seq<seq<File>>

    constructor (g: Graph)
      ensures this.g == g && Now() == EMPTY_SEARCH
    {
      this.g := g;
      visited, recStack, path, cycles := {}, {}, [], [];
    }

    function Now(): Search
      reads this
    {
      Search(visited, recStack, path, cycles)
    }

    method Dfs(u: File)
      requires Coherent(g, Now()) && u in g && u !in visited
      modifies this
      ensures Now() == Visit(g, u, old(Now()))
      decreases g.Keys - visited
    {
      visited := visited + {u};
      recStack := recStack + {u};
      path := path + [u];
      ghost var entered := Now();
      var imports := g[u].imports;
      for i := 0 to |imports|
        invariant Coherent(g, Now()) && u in visited
        invariant old(visited) <= visited
        invariant Scan(g, u, imports, entered) == Scan(g, u, imports[i..], Now())
      {
        var neighbor := imports[i];
        assert imports[i..][1..] == imports[i + 1..];
        if neighbor in g {
          if neighbor !in visited {
            Dfs(neighbor);
          } else if neighbor in recStack {
            var start := IndexOf(path, neighbor);
            cycles := cycles + [path[start..] + [neighbor]];
          }
        }
      }
      path := path[..|path| - 1];
      recStack := recStack - {u};
    }
  }

  class DependencyGraph {
    var nodes: Graph
    var order: seq<File>  // the keys of `nodes` in insertion order

    ghost predicate Listed()
      reads this
    {
      NoDup(order) && Elements(order) == nodes.Keys
    }

    ghost predicate Valid()
      reads this
    {
      Listed() && NoRepeats(nodes)
    }

    constructor ()
      ensures Valid() && nodes == map[]
    {
      nodes, order := map[], [];
    }

    method AddFile(file: File, imports: seq<File>)
      requires Valid()
      modifies this
      ensures Valid() && nodes == WithFile(old(nodes), file, imports)
      ensures order == if file in old(nodes) then old(order) else old(order) + [file]
    {
      AddFileNoRepeats(nodes, file, imports);
      if file !in nodes {
        AppendNew(order, file);
        nodes := nodes[file := EMPTY_NODE];
        order := order + [file];
      }
      nodes := nodes[file := nodes[file].(imports := imports)];
      assert nodes == WithImports(old(nodes), file, imports);
      UpdateBackReferences(file);
    }

    method UpdateBackReferences(file: File)
      requires Listed()
      modifies this`nodes
      ensures nodes == map f | f in old(nodes) :: BackReference(file, old(nodes)[f])
    {
      var keys := order;
      for i := 0 to |keys|
        invariant order == keys && nodes.Keys == old(nodes).Keys == Elements(keys)
        invariant forall j :: 0 <= j < i ==> nodes[keys[j]] == BackReference(file, old(nodes)[keys[j]])
        invariant forall j :: i <= j < |keys| ==> nodes[keys[j]] == old(nodes)[keys[j]]
      {
        var node := nodes[keys[i]];
        if file in node.imports && file !in node.importedBy {
          nodes := nodes[keys[i] := node.(importedBy := node.importedBy + [file])];
        }
      }
      forall f | f in nodes
        ensures nodes[f] == BackReference(file, old(nodes)[f])
      {
        assert f in Elements(keys);
      }
    }

    method RemoveFile(file: File)
      requires Valid()
      modifies this
      ensures Valid() && nodes == WithoutFile(old(nodes), file) && Dropped(old(order), order, file)
      ensures file in old(nodes) ==>
                forall u, v :: Dependent(nodes, u, v) <==> Dependent(old(nodes), u, v) && u != file && v != file
    {
      assert file in Elements(order) <==> file in order;
      RemoveFileNoRepeats(nodes, file);
      if file in nodes {
        forall u, v {
          RemoveFileReferences(nodes, file, u, v);
        }
      }
      if file !in nodes {
        return;
      }
      ForgetEverywhere(file);
      assert file in Elements(order);
      var k := IndexOf(order, file);
      DropAt(order, k);
      nodes := nodes - {file};
      order := order[..k] + order[k + 1..];
      assert nodes == WithoutFile(old(nodes), file);
    }

    method ForgetEverywhere(file: File)
      requires Listed()
      modifies this`nodes
      ensures nodes == map f | f in old(nodes) :: Forget(file, old(nodes)[f])
    {
      var keys := order;
      for i := 0 to |keys|
        invariant order == keys && nodes.Keys == old(nodes).Keys == Elements(keys)
        invariant forall j :: 0 <= j < i ==> nodes[keys[j]] == Forget(file, old(nodes)[keys[j]])
        invariant forall j :: i <= j < |keys| ==> nodes[keys[j]] == old(nodes)[keys[j]]
      {
        nodes := nodes[keys[i] := Forget(file, nodes[keys[i]])];
      }
      forall f | f in nodes
        ensures nodes[f] == Forget(file, old(nodes)[f])
      {
        assert f in Elements(keys);
      }
    }

    /** The inner loop of `get_impacted_files`. */
    method EnqueueDependents(current: File, impacted: set<File>, toProcess: seq<File>, ghost target: set<File>)
      returns (impacted': set<File>, toProcess': seq<File>)
      requires current in impacted && impacted <= target && ClosedUnderDependents(nodes, target)
      requires Elements(toProcess) <= impacted
      ensures impacted <= impacted' <= target && Elements(toProcess') <= impacted'
      ensures forall v :: Dependent(nodes, current, v) ==> v in impacted'
      ensures impacted' <= impacted + Elements(toProcess') && Elements(toProcess) <= Elements(toProcess')
      ensures impacted' == impacted ==> toProcess' == toProcess
    {
      impacted', toProcess' := impacted, toProcess;
      var dependents := if current in nodes then nodes[current].importedBy else [];
      for i := 0 to |dependents|
        invariant impacted <= impacted' <= target && Elements(toProcess') <= impacted'
        invariant impacted' <= impacted + Elements(toProcess') && Elements(toProcess) <= Elements(toProcess')
        invariant impacted' == impacted ==> toProcess' == toProcess
        invariant forall j :: 0 <= j < i ==> dependents[j] in impacted'
      {
        if dependents[i] !in impacted' {
          assert Dependent(nodes, current, dependents[i]);
          assert Elements(toProcess' + [dependents[i]]) == Elements(toProcess') + {dependents[i]};
          impacted' := impacted' + {dependents[i]};
          toProcess' := toProcess' + [dependents[i]];
        }
      }
    }

    /** Exactly the impact set, in ascending order (hence without repetition). */
    method GetImpactedFiles(changed: seq<File>) returns (r: seq<File>)
      ensures Ascending(r) && Elements(r) == ImpactSet(nodes, Elements(changed))
    {
      ghost var start, g := Elements(changed), nodes;
      ghost var target := ImpactSet(g, start);
      ImpactSetClosed(g, start);
      var impacted := Elements(changed);
      var toProcess := changed;
      while toProcess != []
        invariant start <= impacted <= target
        invariant Elements(toProcess) <= impacted
        invariant ClosedExcept(g, impacted, Elements(toProcess))
        decreases target - impacted, |toProcess|
      {
        var current := toProcess[0];
        toProcess := toProcess[1..];
        ghost var before, rest := impacted, toProcess;
        assert Elements(rest) + {current} == Elements([current] + rest);
        impacted, toProcess := EnqueueDependents(current, impacted, toProcess, target);
        assert ClosedExcept(g, impacted, Elements(toProcess)) by {
          forall u, v | u in impacted && Dependent(g, u, v) && u !in Elements(toProcess)
            ensures v in impacted
          {
            if u != current {
              assert u in before;
            }
          }
        }
      }
      ImpactSetLeast(g, start, impacted);
      r := Sorted(impacted);
    }

    method DetectCircularDependencies() returns (cycles: seq<seq<File>>)
      requires Listed()
      ensures cycles == DetectCycles(nodes, order)
    {
      var search := new CycleSearch(nodes);
      for i := 0 to |order|
        invariant search.g == nodes && Coherent(nodes, search.Now())
        invariant SearchFrom(nodes, order, EMPTY_SEARCH) == SearchFrom(nodes, order[i..], search.Now())
      {
        assert order[i..][1..] == order[i + 1..];
        if order[i] !in search.visited {
          search.Dfs(order[i]);
        }
      }
      cycles := search.cycles;
    }

    method MarkCircular()
      requires Valid()
      modifies this
      ensures Valid() && order == old(order)
      ensures nodes == Marked(old(nodes), DetectCycles(old(nodes), order))
    {
      var cycles := DetectCircularDependencies();
      ghost var start := nodes;
      MarkedByNone(start);
      assert cycles[..0] == [];
      for i := 0 to |cycles|
        invariant order == old(order) && nodes == Marked(start, cycles[..i])
      {
        MarkedAppend(start, cycles, i);
        MarkCycle(cycles[i]);
      }
      assert cycles[..|cycles|] == cycles;
      MarkedKeepsFiles(start, cycles);
      assert NoRepeats(nodes) by {
        assert forall f :: f in nodes ==> f in start && nodes[f].importedBy == start[f].importedBy;
      }
    }

    /** The inner loop. */
    method MarkCycle(c: seq<File>)
      modifies this`nodes
      ensures nodes == Marked(old(nodes), [c])
    {
      MarkedNone(nodes);
      for j := 0 to |c|
        invariant nodes == Marked(old(nodes), [c[..j]])
      {
        MarkedOneMore(old(nodes), c, j);
        var f := c[j];
        if f in nodes {
          nodes := nodes[f := nodes[f].(isCircular := true)];
        }
      }
      assert c[..|c|] == c;
    }
  }

  lemma MarkedByNone(g: Graph)
    ensures Marked(g, []) == g
  {
  }

  lemma MarkedKeepsFiles(g: Graph, cycles: seq<seq<File>>)
    ensures Marked(g, cycles).Keys == g.Keys
  {
  }

  lemma MarkedNone(g: Graph)
    ensures Marked(g, [[]]) == g
  {
  }

  lemma MarkedOneMore(g: Graph, c: seq<File>, j: nat)
    requires j < |c|
    ensures var before := Marked(g, [c[..j]]);
      Marked(g, [c[..j + 1]]) ==
        if c[j] in g then before[c[j] := before[c[j]].(isCircular := true)] else before
  {
    assert c[..j + 1] == c[..j] + [c[j]];
    assert c[..j + 1] in [c[..j + 1]] && c[..j] in [c[..j]];
  }

  lemma MarkedAppend(g: Graph, cycles: seq<seq<File>>, i: nat)
    requires i < |cycles|
    ensures Marked(Marked(g, cycles[..i]), [cycles[i]]) == Marked(g, cycles[..i + 1])
  {
    assert cycles[..i + 1] == cycles[..i] + [cycles[i]];
    forall f | f in g
      ensures Marked(Marked(g, cycles[..i]), [cycles[i]])[f] == Marked(g, cycles[..i + 1])[f]
    {
      assert cycles[i] in [cycles[i]] && cycles[i] in cycles[..i + 1];
      assert forall c :: c in cycles[..i + 1] <==> c in cycles[..i] || c == cycles[i];
    }
  }
}
