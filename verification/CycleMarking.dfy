/**
  Which files the marking of circular imports can miss.

  Whether a file on an import cycle gets marked depends on the order in which files and their
  imports are listed. This module says exactly which import relations leave no such choice:
  every order marks every file on a cycle if and only if no file can hide (`Hides`).
*/
module CycleMarking {
  import opened Sequences
  import opened ImportGraph

  // ---- chains of imports that keep away from some files ------------------------------------

  ghost predicate Chain(g: Graph, avoid: set<File>, p: seq<File>, u: File, v: File) {
    && p != [] && p[0] == u && p[|p| - 1] == v && u in g
    && Walk(g, p) && Elements(p) !! avoid
  }

  /** A chain of imports leads from `u` to `v`, both included, without a file in `avoid`. */
  ghost predicate Leads(g: Graph, avoid: set<File>, u: File, v: File) {
    exists p :: Chain(g, avoid, p, u, v)
  }

  lemma LeadsToItself(g: Graph, avoid: set<File>, u: File)
    requires u in g && u !in avoid
    ensures Leads(g, avoid, u, u)
  {
    assert Chain(g, avoid, [u], u, u);
  }

  lemma LeadsEnds(g: Graph, avoid: set<File>, u: File, v: File)
    requires Leads(g, avoid, u, v)
    ensures u in g && v in g && u !in avoid && v !in avoid
  {
    var p :| Chain(g, avoid, p, u, v);
    assert u in Elements(p) && v in Elements(p);
    if |p| > 1 {
      assert Edge(g, p[|p| - 2], p[|p| - 1]);
    }
  }

  lemma LeadsOn(g: Graph, avoid: set<File>, u: File, v: File, w: File)
    requires Leads(g, avoid, u, v) && Leads(g, avoid, v, w)
    ensures Leads(g, avoid, u, w)
  {
    var p :| Chain(g, avoid, p, u, v);
    var q :| Chain(g, avoid, q, v, w);
    var r := p + q[1..];
    forall i | 0 <= i < |r| - 1
      ensures Edge(g, r[i], r[i + 1])
    {
      if i >= |p| - 1 {
        assert r[i] == q[i - (|p| - 1)] && r[i + 1] == q[i + 1 - (|p| - 1)];
        assert Edge(g, q[i - (|p| - 1)], q[i - (|p| - 1) + 1]);
      } else {
        assert Edge(g, p[i], p[i + 1]);
      }
    }
    assert Elements(r) <= Elements(p) + Elements(q);
    assert Chain(g, avoid, r, u, w);
  }

  lemma LeadsEdge(g: Graph, avoid: set<File>, u: File, v: File)
    requires Edge(g, u, v) && u !in avoid && v !in avoid
    ensures Leads(g, avoid, u, v)
  {
    assert Chain(g, avoid, [u, v], u, v);
  }

  lemma LeadsFewer(g: Graph, avoid: set<File>, fewer: set<File>, u: File, v: File)
    requires Leads(g, avoid, u, v) && fewer <= avoid
    ensures Leads(g, fewer, u, v)
  {
    var p :| Chain(g, avoid, p, u, v);
    assert Chain(g, fewer, p, u, v);
  }

  /** What a set closed under imports outside `avoid` holds. */
  lemma {:induction false} ClosedHolds(g: Graph, avoid: set<File>, closed: set<File>, p: seq<File>, u: File, v: File)
    requires Chain(g, avoid, p, u, v) && u in closed
    requires forall x, y :: x in closed && Edge(g, x, y) && y !in avoid ==> y in closed
    ensures v in closed
    decreases |p|
  {
    if |p| == 1 {
    } else {
      var q := p[..|p| - 1];
      assert Elements(q) <= Elements(p) && v in Elements(p);
      assert Edge(g, p[|p| - 2], p[|p| - 1]);
      assert Chain(g, avoid, q, u, q[|q| - 1]) by {
        assert forall i :: 0 <= i < |q| - 1 ==> Edge(g, q[i], q[i + 1]) by {
          assert forall i :: 0 <= i < |q| - 1 ==> Edge(g, p[i], p[i + 1]);
        }
      }
      ClosedHolds(g, avoid, closed, q, u, q[|q| - 1]);
    }
  }

  lemma ClosedHoldsLed(g: Graph, avoid: set<File>, closed: set<File>, u: File, v: File)
    requires Leads(g, avoid, u, v) && u in closed
    requires forall x, y :: x in closed && Edge(g, x, y) && y !in avoid ==> y in closed
    ensures v in closed
  {
    var p :| Chain(g, avoid, p, u, v);
    ClosedHolds(g, avoid, closed, p, u, v);
  }

  // ---- the condition ----------------------------------------------------------------------

  ghost predicate Circular(g: Graph, v: File) {
    exists c :: Cycle(g, c) && v in c
  }

  /**
    What the search can have finished before it follows the path `p` on to `v`: the files that
    some p[i] leads to through an import that does not lead to `v` around p[..i + 1].
  */
  ghost predicate Skipped(g: Graph, p: seq<File>, v: File, x: File) {
    exists i, c :: SkippedBy(g, p, v, x, i, c)
  }

  ghost predicate SkippedBy(g: Graph, p: seq<File>, v: File, x: File, i: int, c: File) {
    && 0 <= i < |p| && Edge(g, p[i], c)
    && Leads(g, Elements(p[..i + 1]), c, x) && !Leads(g, Elements(p[..i + 1]), c, v)
  }

  ghost function SkippedFiles(g: Graph, p: seq<File>, v: File): set<File> {
    set x | x in g && Skipped(g, p, v, x)
  }

  /**
    `v` can hide behind the simple path `p`: it lies on a cycle, and what it still leads to once
    the skipped files are gone imports neither `v` nor a file of the path.
  */
  ghost predicate Hides(g: Graph, p: seq<File>, v: File) {
    && v in g && Walk(g, p + [v]) && NoDup(p + [v]) && Circular(g, v)
    && forall x, y :: Leads(g, Elements(p) + SkippedFiles(g, p, v), v, x) && y in p + [v] ==> !Edge(g, x, y)
  }

  // ---- what one search visits and reports ----------------------------------------------------

  function Done(s: Search): set<File> {
    s.visited - s.recStack
  }

  /** Every import of a finished file has been visited. */
  ghost predicate DoneClosed(g: Graph, s: Search) {
    forall x, y :: x in Done(s) && Edge(g, x, y) ==> y in s.visited
  }

  lemma {:induction false} VisitCloses(g: Graph, u: File, s: Search)
    requires Coherent(g, s) && u in g && u !in s.visited && DoneClosed(g, s)
    ensures DoneClosed(g, Visit(g, u, s))
    decreases g.Keys - s.visited, 0
  {
    ScanCloses(g, u, g[u].imports, Enter(u, s));
  }

  lemma {:induction false} ScanCloses(g: Graph, u: File, ns: seq<File>, s: Search)
    requires Coherent(g, s) && DoneClosed(g, s)
    ensures DoneClosed(g, Scan(g, u, ns, s))
    ensures forall n :: n in ns && n in g ==> n in Scan(g, u, ns, s).visited
    decreases g.Keys - s.visited, 1 + |ns|
  {
    if ns == [] {
    } else {
      if ns[0] in g && ns[0] !in s.visited {
        VisitCloses(g, ns[0], s);
      }
      ScanCloses(g, u, ns[1..], ScanOne(g, ns[0], s));
    }
  }

  /** A visit adds only files that `u` leads to around the files visited before. */
  lemma {:induction false} VisitIsLed(g: Graph, u: File, s: Search, x: File)
    requires Coherent(g, s) && u in g && u !in s.visited
    requires x in Visit(g, u, s).visited && x !in s.visited
    ensures Leads(g, s.visited, u, x)
    decreases g.Keys - s.visited, 0
  {
    LeadsToItself(g, s.visited, u);
    if x != u {
      var n := ScanIsLed(g, u, g[u].imports, Enter(u, s), x);
      LeadsFewer(g, s.visited + {u}, s.visited, n, x);
      LeadsEnds(g, s.visited, n, x);
      LeadsEdge(g, s.visited, u, n);
      LeadsOn(g, s.visited, u, n, x);
    }
  }

  lemma {:induction false} ScanIsLed(g: Graph, u: File, ns: seq<File>, s: Search, x: File) returns (n: File)
    requires Coherent(g, s) && x in Scan(g, u, ns, s).visited && x !in s.visited
    ensures n in ns && Leads(g, s.visited, n, x)
    decreases g.Keys - s.visited, 1 + |ns|
  {
    var s1 := ScanOne(g, ns[0], s);
    if x in s1.visited {
      n := ns[0];
      VisitIsLed(g, n, s, x);
    } else {
      n := ScanIsLed(g, u, ns[1..], s1, x);
      LeadsFewer(g, s1.visited, s.visited, n, x);
    }
  }

  /** The cycle `c` runs through all of the path from `y` on. */
  ghost predicate Spans(c: seq<File>, path: seq<File>, y: File) {
    y in path && forall k :: IndexOf(path, y) <= k < |path| ==> path[k] in c
  }

  ghost predicate Spanned(cycles: seq<seq<File>>, path: seq<File>, y: File) {
    exists c :: c in cycles && Spans(c, path, y)
  }

  lemma SpannedLater(a: seq<seq<File>>, b: seq<seq<File>>, path: seq<File>, y: File)
    requires Spanned(a, path, y) && a <= b
    ensures Spanned(b, path, y)
  {
    var c :| c in a && Spans(c, path, y);
    assert c in b;
  }

  lemma SpannedShorter(cycles: seq<seq<File>>, path: seq<File>, u: File, y: File)
    requires Spanned(cycles, path + [u], y) && y in path
    ensures Spanned(cycles, path, y)
  {
    var c :| c in cycles && Spans(c, path + [u], y);
    IndexInFront(path, u, y);
    forall k | IndexOf(path, y) <= k < |path|
      ensures path[k] in c
    {
      assert (path + [u])[k] in c;
    }
    assert Spans(c, path, y);
  }

  lemma {:induction false} IndexInFront(path: seq<File>, u: File, y: File)
    requires y in path
    ensures IndexOf(path + [u], y) == IndexOf(path, y)
  {
    if path[0] == y {
    } else {
      assert (path + [u])[1..] == path[1..] + [u];
      IndexInFront(path[1..], u, y);
    }
  }

  /** Every import from a newly visited file back into the path is reported. */
  lemma {:induction false} VisitReports(g: Graph, u: File, s: Search, x: File, y: File)
    requires Coherent(g, s) && u in g && u !in s.visited
    requires x in Visit(g, u, s).visited && x !in s.visited && Edge(g, x, y) && y in s.path + [u]
    ensures Spanned(Visit(g, u, s).cycles, s.path + [u], y)
    decreases g.Keys - s.visited, 0
  {
    ScanReports(g, u, g[u].imports, Enter(u, s), x, y);
  }

  lemma {:induction false} ScanReports(g: Graph, u: File, ns: seq<File>, s: Search, x: File, y: File)
    requires Coherent(g, s) && y in s.path
    requires (x == u && y in ns) || (x in Scan(g, u, ns, s).visited && x !in s.visited && Edge(g, x, y))
    ensures Spanned(Scan(g, u, ns, s).cycles, s.path, y)
    decreases g.Keys - s.visited, 1 + |ns|
  {
    var n, s1 := ns[0], ScanOne(g, ns[0], s);
    var all := Scan(g, u, ns, s).cycles;
    assert y in Elements(s.path) && y in s.recStack && y in g;
    if x == u && y == n {
      var c := s.path[IndexOf(s.path, n)..] + [n];
      assert c in s1.cycles && Spans(c, s.path, y) by {
        assert s1.cycles[|s1.cycles| - 1] == c;
        forall k | IndexOf(s.path, n) <= k < |s.path|
          ensures s.path[k] in c
        {
          assert c[k - IndexOf(s.path, n)] == s.path[k];
        }
      }
      SpannedLater(s1.cycles, all, s.path, y);
    } else if x !in s.visited && x in s1.visited && Edge(g, x, y) {
      VisitReports(g, n, s, x, y);
      SpannedShorter(s1.cycles, s.path, n, y);
      SpannedLater(s1.cycles, all, s.path, y);
    } else {
      ScanReports(g, u, ns[1..], s1, x, y);
    }
  }

  // ---- whoever is left unmarked hides ----------------------------------------------------------

  /** `x` was finished on behalf of the import `c` of path[i], with everything `c` leads to around path[..i + 1]. */
  ghost predicate SettledAt(g: Graph, path: seq<File>, done: set<File>, x: File, i: int, c: File) {
    && 0 <= i < |path| && Edge(g, path[i], c) && Leads(g, Elements(path[..i + 1]), c, x)
    && forall y :: Leads(g, Elements(path[..i + 1]), c, y) ==> y in done
  }

  /** `x` was finished in an earlier tree, with everything it leads to. */
  ghost predicate SettledBefore(g: Graph, done: set<File>, x: File) {
    forall y :: Leads(g, {}, x, y) ==> y in done
  }

  ghost predicate Settled(g: Graph, s: Search) {
    && DoneClosed(g, s)
    && forall x :: x in Done(s) ==>
         SettledBefore(g, Done(s), x) || exists i, c :: SettledAt(g, s.path, Done(s), x, i, c)
  }

  lemma EnterSettles(g: Graph, u: File, s: Search)
    requires Coherent(g, s) && Settled(g, s) && u in g && u !in s.visited
    ensures Settled(g, Enter(u, s))
  {
    var s1 := Enter(u, s);
    assert Done(s1) == Done(s);
    forall x | x in Done(s) && !SettledBefore(g, Done(s), x)
      ensures exists i, c :: SettledAt(g, s1.path, Done(s), x, i, c)
    {
      var i, c :| SettledAt(g, s.path, Done(s), x, i, c);
      assert s1.path[..i + 1] == s.path[..i + 1];
      assert SettledAt(g, s1.path, Done(s), x, i, c);
    }
  }

  lemma LeaveSettles(g: Graph, u: File, s: Search)
    requires Coherent(g, s) && Settled(g, s) && s.path != [] && s.path[|s.path| - 1] == u && Walk(g, s.path)
    requires u in g && forall y :: Edge(g, u, y) ==> y in s.visited
    ensures Settled(g, Leave(u, s))
  {
    var s1 := Leave(u, s);
    assert s.path == s1.path + [u];
    assert u in Elements(s.path) && Done(s1) == Done(s) + {u};
    assert u !in Elements(s1.path);
    forall x | x in Done(s1)
      ensures SettledBefore(g, Done(s1), x) || exists i, c :: SettledAt(g, s1.path, Done(s1), x, i, c)
    {
      if x in Done(s) && SettledBefore(g, Done(s), x) {
      } else if x in Done(s) && exists i, c :: i < |s1.path| && SettledAt(g, s.path, Done(s), x, i, c) {
        var i, c :| i < |s1.path| && SettledAt(g, s.path, Done(s), x, i, c);
        assert s1.path[..i + 1] == s.path[..i + 1];
        assert SettledAt(g, s1.path, Done(s1), x, i, c);
      } else {
        LastSettles(g, u, s, x);
      }
    }
  }

  /** What was finished on behalf of `u` itself. */
  lemma LastSettles(g: Graph, u: File, s: Search, x: File)
    requires Coherent(g, s) && DoneClosed(g, s) && s.path != [] && s.path[|s.path| - 1] == u && Walk(g, s.path)
    requires u in g && forall y :: Edge(g, u, y) ==> y in s.visited
    requires x == u || exists i, c :: i == |s.path| - 1 && SettledAt(g, s.path, Done(s), x, i, c)
    ensures var s1 := Leave(u, s);
      SettledBefore(g, Done(s1), x) || exists i, c :: SettledAt(g, s1.path, Done(s1), x, i, c)
  {
    var s1 := Leave(u, s);
    var avoid := Elements(s1.path);
    assert s.path == s1.path + [u];
    LastLeads(g, u, s, x);
    LastCloses(g, u, s);
    if s1.path == [] {
      assert avoid == {};
      forall y | Leads(g, {}, x, y)
        ensures y in Done(s1)
      {
        LeadsOn(g, {}, u, x, y);
      }
    } else {
      var i := |s1.path| - 1;
      assert s1.path[..i + 1] == s1.path;
      assert Edge(g, s.path[i], s.path[i + 1]);
      assert SettledAt(g, s1.path, Done(s1), x, i, u);
    }
  }

  lemma LastLeads(g: Graph, u: File, s: Search, x: File)
    requires Coherent(g, s) && s.path != [] && s.path[|s.path| - 1] == u && u in g
    requires x == u || exists i, c :: i == |s.path| - 1 && SettledAt(g, s.path, Done(s), x, i, c)
    ensures Leads(g, Elements(Leave(u, s).path), u, x)
  {
    var avoid := Elements(Leave(u, s).path);
    assert s.path == Leave(u, s).path + [u] && u !in avoid;
    LeadsToItself(g, avoid, u);
    if x != u {
      var i, c :| i == |s.path| - 1 && SettledAt(g, s.path, Done(s), x, i, c);
      assert s.path[..|s.path|] == s.path;
      LeadsFewer(g, Elements(s.path), avoid, c, x);
      LeadsEnds(g, avoid, c, x);
      LeadsEdge(g, avoid, u, c);
      LeadsOn(g, avoid, u, c, x);
    }
  }

  lemma LastCloses(g: Graph, u: File, s: Search)
    requires Coherent(g, s) && DoneClosed(g, s) && s.path != [] && s.path[|s.path| - 1] == u
    requires u in g && forall y :: Edge(g, u, y) ==> y in s.visited
    ensures forall y :: Leads(g, Elements(Leave(u, s).path), u, y) ==> y in Done(Leave(u, s))
  {
    var s1 := Leave(u, s);
    assert s.path == s1.path + [u] && u in Elements(s.path);
    forall y | Leads(g, Elements(s1.path), u, y)
      ensures y in Done(s1)
    {
      ClosedHoldsLed(g, Elements(s1.path), Done(s1), u, y);
    }
  }

  lemma {:induction false} VisitSettles(g: Graph, u: File, s: Search)
    requires Coherent(g, s) && Settled(g, s) && u !in s.visited && u in g && Walk(g, s.path + [u])
    ensures Settled(g, Visit(g, u, s))
    decreases g.Keys - s.visited, 0
  {
    EnterSettles(g, u, s);
    ScanSettles(g, u, g[u].imports, Enter(u, s));
    ScanCloses(g, u, g[u].imports, Enter(u, s));
    LeaveSettles(g, u, Scan(g, u, g[u].imports, Enter(u, s)));
  }

  lemma {:induction false} ScanSettles(g: Graph, u: File, ns: seq<File>, s: Search)
    requires Coherent(g, s) && Settled(g, s) && s.path != [] && s.path[|s.path| - 1] == u && Walk(g, s.path)
    requires u in g && forall n :: n in ns ==> n in g[u].imports
    ensures Settled(g, Scan(g, u, ns, s))
    decreases g.Keys - s.visited, 1 + |ns|
  {
    if ns == [] {
    } else {
      var n := ns[0];
      StepSettles(g, u, n, s);
      ScanSettles(g, u, ns[1..], ScanOne(g, n, s));
    }
  }

  lemma {:induction false} StepSettles(g: Graph, u: File, n: File, s: Search)
    requires Coherent(g, s) && Settled(g, s) && s.path != [] && s.path[|s.path| - 1] == u && Walk(g, s.path)
    requires u in g && n in g[u].imports
    ensures Settled(g, ScanOne(g, n, s))
    decreases g.Keys - s.visited, 1
  {
    if n in g && n !in s.visited {
      assert Edge(g, u, n);
      VisitSettles(g, n, s);
    } else {
      var s1 := ScanOne(g, n, s);
      assert Done(s1) == Done(s) && s1.path == s.path;
      forall x | x in Done(s) && !SettledBefore(g, Done(s), x)
        ensures exists i, c :: SettledAt(g, s1.path, Done(s1), x, i, c)
      {
        var i, c :| SettledAt(g, s.path, Done(s), x, i, c);
        assert SettledAt(g, s1.path, Done(s1), x, i, c);
      }
    }
  }

  /** The search as it was when `v` was entered; `cycles` is what it reports in the end. */
  ghost predicate EntryOf(g: Graph, v: File, e: Search, cycles: seq<seq<File>>) {
    && Coherent(g, e) && Settled(g, e) && v in g && v !in e.visited && Walk(g, e.path + [v])
    && Visit(g, v, e).cycles <= cycles
  }

  lemma {:induction false} VisitEntry(g: Graph, u: File, s: Search, v: File) returns (e: Search)
    requires Coherent(g, s) && Settled(g, s) && u !in s.visited && u in g && Walk(g, s.path + [u])
    requires v in Visit(g, u, s).visited && v !in s.visited
    ensures EntryOf(g, v, e, Visit(g, u, s).cycles)
    decreases g.Keys - s.visited, 0
  {
    if v == u {
      e := s;
    } else {
      EnterSettles(g, u, s);
      e := ScanEntry(g, u, g[u].imports, Enter(u, s), v);
    }
  }

  lemma {:induction false} ScanEntry(g: Graph, u: File, ns: seq<File>, s: Search, v: File) returns (e: Search)
    requires Coherent(g, s) && Settled(g, s) && s.path != [] && s.path[|s.path| - 1] == u && Walk(g, s.path)
    requires u in g && forall n :: n in ns ==> n in g[u].imports
    requires v in Scan(g, u, ns, s).visited && v !in s.visited
    ensures EntryOf(g, v, e, Scan(g, u, ns, s).cycles)
    decreases g.Keys - s.visited, 1 + |ns|
  {
    var n, s1 := ns[0], ScanOne(g, ns[0], s);
    StepSettles(g, u, n, s);
    if v in s1.visited {
      e := VisitEntry(g, n, s, v);
    } else {
      e := ScanEntry(g, u, ns[1..], s1, v);
    }
  }

  lemma {:induction false} SearchEntry(g: Graph, roots: seq<File>, s: Search, v: File) returns (e: Search)
    requires Coherent(g, s) && Settled(g, s) && s.path == [] && Elements(roots) <= g.Keys
    requires v !in s.visited && v in roots
    ensures EntryOf(g, v, e, SearchFrom(g, roots, s).cycles)
    decreases |roots|
  {
    var u := roots[0];
    assert u in Elements(roots);
    if u in s.visited {
      e := SearchEntry(g, roots[1..], s, v);
    } else {
      VisitSettles(g, u, s);
      if v in Visit(g, u, s).visited {
        e := VisitEntry(g, u, s, v);
      } else {
        e := SearchEntry(g, roots[1..], Visit(g, u, s), v);
      }
    }
  }

  lemma EscapeMarks(g: Graph, v: File, e: Search, x: File, y: File, cycles: seq<seq<File>>)
    requires EntryOf(g, v, e, cycles)
    requires Leads(g, Elements(e.path) + SkippedFiles(g, e.path, v), v, x) && Edge(g, x, y) && y in e.path + [v]
    ensures exists c :: c in cycles && v in c
  {
    EscapeIsSeen(g, v, e, x, y);
    VisitReports(g, v, e, x, y);
    var c :| c in Visit(g, v, e).cycles && Spans(c, e.path + [v], y);
    assert (e.path + [v])[|e.path|] in c && c in cycles;
  }

  /** A file on a cycle that no reported cycle runs through was hiding when it was entered. */
  lemma UnmarkedHides(g: Graph, v: File, e: Search, cycles: seq<seq<File>>)
    requires EntryOf(g, v, e, cycles) && Circular(g, v)
    requires forall c :: c in cycles ==> v !in c
    ensures Hides(g, e.path, v)
  {
    var p := e.path;
    assert v !in Elements(p) && NoDup(p + [v]);
    forall x, y | Leads(g, Elements(p) + SkippedFiles(g, p, v), v, x) && y in p + [v]
      ensures !Edge(g, x, y)
    {
      if Edge(g, x, y) {
        EscapeMarks(g, v, e, x, y, cycles);
      }
    }
  }

  /** What `v` leads to around the path and the skipped files is visited on behalf of `v`, if it returns to the path. */
  lemma EscapeIsSeen(g: Graph, v: File, e: Search, x: File, y: File)
    requires Coherent(g, e) && Settled(g, e) && v in g && v !in e.visited && Walk(g, e.path + [v])
    requires Leads(g, Elements(e.path) + SkippedFiles(g, e.path, v), v, x) && Edge(g, x, y) && y in e.path + [v]
    ensures x in Visit(g, v, e).visited && x !in e.visited
  {
    var p, skipped, r := e.path, SkippedFiles(g, e.path, v), Visit(g, v, e);
    var old_ := set z | z in Done(e) && SettledBefore(g, Done(e), z);
    var closed := (r.visited - e.visited) + old_;
    VisitCloses(g, v, e);
    assert y in Elements(p) || y == v;
    assert y !in Done(e);
    forall a, b | a in closed && Edge(g, a, b) && b !in Elements(p) + skipped
      ensures b in closed
    {
      if a in old_ {
        OldStaysOld(g, Done(e), a, b);
      } else if b in e.visited {
        assert b in Done(e);
        if !SettledBefore(g, Done(e), b) {
          var i, c :| SettledAt(g, p, Done(e), b, i, c);
          assert v !in Done(e);
          assert SkippedBy(g, p, v, b, i, c);
        }
      }
    }
    ClosedHoldsLed(g, Elements(p) + skipped, closed, v, x);
    if x in old_ {
      OldStaysOld(g, Done(e), x, y);
    }
  }

  lemma OldStaysOld(g: Graph, done: set<File>, x: File, y: File)
    requires x in done && SettledBefore(g, done, x) && Edge(g, x, y)
    ensures y in done && SettledBefore(g, done, y)
  {
    LeadsEdge(g, {}, x, y);
    forall z | Leads(g, {}, y, z)
      ensures z in done
    {
      LeadsOn(g, {}, x, y, z);
    }
  }

  /** In every run, a file on a cycle that stays unmarked can hide. */
  lemma MissedHides(g: Graph, order: seq<File>, v: File)
    requires Elements(order) == g.Keys && Circular(g, v)
    requires v in g && forall c :: c in DetectCycles(g, order) ==> v !in c
    ensures exists p :: Hides(g, p, v)
  {
    assert v in Elements(order);
    var e := SearchEntry(g, order, EMPTY_SEARCH, v);
    UnmarkedHides(g, v, e, DetectCycles(g, order));
  }

  // ---- whoever can hide is left unmarked by some order -------------------------------------------

  /** The same import relation, listed in any order and with any repetitions. */
  ghost predicate SameImports(g: Graph, h: Graph) {
    && h.Keys == g.Keys
    && forall u, v :: u in g ==> (v in h[u].imports <==> v in g[u].imports)
  }

  lemma SameLeads(g: Graph, h: Graph, avoid: set<File>, u: File, v: File)
    requires SameImports(g, h) && Leads(g, avoid, u, v)
    ensures Leads(h, avoid, u, v)
  {
    var p :| Chain(g, avoid, p, u, v);
    forall i | 0 <= i < |p| - 1
      ensures Edge(h, p[i], p[i + 1])
    {
      assert Edge(g, p[i], p[i + 1]);
    }
    assert Chain(h, avoid, p, u, v);
  }

  lemma SameCircular(g: Graph, h: Graph, v: File)
    requires SameImports(g, h) && Circular(g, v)
    ensures Circular(h, v)
  {
    var c :| Cycle(g, c) && v in c;
    assert Cycle(h, c) by {
      forall i | 0 <= i < |c| - 1
        ensures Edge(h, c[i], c[i + 1])
      {
        assert Edge(g, c[i], c[i + 1]);
      }
    }
  }

  lemma SameSkipped(g: Graph, h: Graph, p: seq<File>, v: File)
    requires SameImports(g, h) && SameImports(h, g)
    ensures SkippedFiles(g, p, v) <= SkippedFiles(h, p, v)
  {
    forall x | x in SkippedFiles(g, p, v)
      ensures x in SkippedFiles(h, p, v)
    {
      var i, c :| SkippedBy(g, p, v, x, i, c);
      SameLeads(g, h, Elements(p[..i + 1]), c, x);
      if Leads(h, Elements(p[..i + 1]), c, v) {
        SameLeads(h, g, Elements(p[..i + 1]), c, v);
      }
      assert SkippedBy(h, p, v, x, i, c);
    }
  }

  lemma SameHides(g: Graph, h: Graph, p: seq<File>, v: File)
    requires SameImports(g, h) && Hides(g, p, v)
    ensures Hides(h, p, v)
  {
    SameCircular(g, h, v);
    SameSkipped(g, h, p, v);
    forall i | 0 <= i < |p + [v]| - 1
      ensures Edge(h, (p + [v])[i], (p + [v])[i + 1])
    {
      assert Edge(g, (p + [v])[i], (p + [v])[i + 1]);
    }
    forall x, y | Leads(h, Elements(p) + SkippedFiles(h, p, v), v, x) && y in p + [v]
      ensures !Edge(h, x, y)
    {
      LeadsFewer(h, Elements(p) + SkippedFiles(h, p, v), Elements(p) + SkippedFiles(g, p, v), v, x);
      SameLeads(h, g, Elements(p) + SkippedFiles(g, p, v), v, x);
      assert !Edge(g, x, y);
    }
  }

  /** The imports among `ns` that do not lead to `v` around `avoid`. */
  ghost function Harmless(g: Graph, avoid: set<File>, v: File, ns: seq<File>): (r: seq<File>)
    ensures forall n :: n in r <==> n in ns && n in g && !Leads(g, avoid, n, v)
  {
    if ns == [] then []
    else
      assert forall n :: n in ns <==> n == ns[0] || n in ns[1..];
      (if ns[0] in g && !Leads(g, avoid, ns[0], v) then [ns[0]] else []) + Harmless(g, avoid, v, ns[1..])
  }

  /** On the path: first what does not lead to `v`, then the next file of the path. */
  ghost function HidingImports(g: Graph, p: seq<File>, v: File, i: nat): seq<File>
    requires i < |p| && p[i] in g
  {
    Harmless(g, Elements(p[..i + 1]), v, g[p[i]].imports) + [(p + [v])[i + 1]] + g[p[i]].imports
  }

  ghost function HidingGraph(g: Graph, p: seq<File>, v: File): Graph {
    map f | f in g ::
      Node(if f in p then HidingImports(g, p, v, IndexOf(p, f)) else g[f].imports, g[f].importedBy, false)
  }

  lemma HidingGraphImports(g: Graph, p: seq<File>, v: File)
    requires Walk(g, p + [v])
    ensures SameImports(g, HidingGraph(g, p, v))
  {
    forall f, y | f in g
      ensures y in HidingGraph(g, p, v)[f].imports <==> y in g[f].imports
    {
      if f in p {
        var i := IndexOf(p, f);
        assert Edge(g, (p + [v])[i], (p + [v])[i + 1]);
      }
    }
  }

  ghost predicate Off(cycles: seq<seq<File>>, v: File) {
    forall c :: c in cycles ==> v !in c
  }

  /** As long as `v` is not on the path, no cycle through it is reported. */
  lemma {:induction false} VisitOff(g: Graph, u: File, s: Search, v: File)
    requires Coherent(g, s) && u in g && u !in s.visited && Off(s.cycles, v) && v !in s.recStack
    requires v in s.visited || v !in Visit(g, u, s).visited
    ensures Off(Visit(g, u, s).cycles, v)
    decreases g.Keys - s.visited, 0
  {
    ScanOff(g, u, g[u].imports, Enter(u, s), v);
  }

  lemma {:induction false} ScanOff(g: Graph, u: File, ns: seq<File>, s: Search, v: File)
    requires Coherent(g, s) && Off(s.cycles, v) && v !in s.recStack
    requires v in s.visited || v !in Scan(g, u, ns, s).visited
    ensures Off(Scan(g, u, ns, s).cycles, v)
    decreases g.Keys - s.visited, 1 + |ns|
  {
    if ns == [] {
    } else {
      var n := ns[0];
      if n in g && n !in s.visited {
        VisitOff(g, n, s, v);
      } else if n in g && n in s.recStack {
        ReportOff(g, n, s, v);
      }
      ScanOff(g, u, ns[1..], ScanOne(g, n, s), v);
    }
  }

  lemma ReportOff(g: Graph, n: File, s: Search, v: File)
    requires Coherent(g, s) && Off(s.cycles, v) && n in s.path
    requires v !in s.path[IndexOf(s.path, n)..]
    ensures Off(Report(n, s).cycles, v)
  {
    assert s.path[IndexOf(s.path, n)] == n;
  }

  lemma {:induction false} SearchOff(g: Graph, roots: seq<File>, s: Search, v: File)
    requires Coherent(g, s) && Elements(roots) <= g.Keys && s.path == []
    requires Off(s.cycles, v) && v in s.visited
    ensures Off(SearchFrom(g, roots, s).cycles, v)
    decreases |roots|
  {
    if roots == [] {
    } else {
      if roots[0] !in s.visited {
        VisitOff(g, roots[0], s, v);
      }
      SearchOff(g, roots[1..], if roots[0] in s.visited then s else Visit(g, roots[0], s), v);
    }
  }

  /** If nothing newly visited imports a file of `b`, the front of the path, no cycle through it is reported. */
  lemma {:induction false} VisitSpares(g: Graph, u: File, s: Search, b: seq<File>, v: File)
    requires Coherent(g, s) && u in g && u !in s.visited && Off(s.cycles, v) && b <= s.path && v in b
    requires forall x, y :: x in Visit(g, u, s).visited && x !in s.visited && y in b ==> !Edge(g, x, y)
    ensures Off(Visit(g, u, s).cycles, v)
    decreases g.Keys - s.visited, 0
  {
    assert forall n :: n in g[u].imports && n in b && n in g ==> Edge(g, u, n);
    ScanSpares(g, u, g[u].imports, Enter(u, s), b, v);
  }

  lemma {:induction false} ScanSpares(g: Graph, u: File, ns: seq<File>, s: Search, b: seq<File>, v: File)
    requires Coherent(g, s) && Off(s.cycles, v) && b <= s.path && v in b
    requires forall n :: n in ns && n in g ==> n !in b
    requires forall x, y :: x in Scan(g, u, ns, s).visited && x !in s.visited && y in b ==> !Edge(g, x, y)
    ensures Off(Scan(g, u, ns, s).cycles, v)
    decreases g.Keys - s.visited, 1 + |ns|
  {
    if ns == [] {
    } else {
      var n := ns[0];
      if n in g && n !in s.visited {
        assert Visit(g, n, s).visited <= Scan(g, u, ns, s).visited;
        VisitSpares(g, n, s, b, v);
      } else if n in g && n in s.recStack {
        BehindTheFront(s.path, b, n, v);
        ReportOff(g, n, s, v);
      }
      ScanSpares(g, u, ns[1..], ScanOne(g, n, s), b, v);
    }
  }

  lemma BehindTheFront(path: seq<File>, b: seq<File>, n: File, v: File)
    requires NoDup(path) && b <= path && n in path && n !in b && v in b
    ensures v !in path[IndexOf(path, n)..]
  {
    var k := IndexOf(path, n);
    assert forall m :: 0 <= m < |b| ==> path[m] == b[m] && b[m] in b;
    var i :| 0 <= i < |b| && b[i] == v;
    assert path[i] == v;
    forall j | 0 <= j < |path[k..]|
      ensures path[k..][j] != v
    {
      assert path[k..][j] == path[k + j];
    }
  }

  lemma FrontAndRest(q: seq<File>, i: nat)
    requires NoDup(q) && i <= |q|
    ensures Elements(q[i..]) !! Elements(q[..i])
  {
    forall x | x in q[i..]
      ensures x !in q[..i]
    {
      var k :| 0 <= k < |q[i..]| && q[i..][k] == x;
      assert q[i + k] == x;
    }
  }

  lemma {:induction false} ScanConcat(g: Graph, u: File, a: seq<File>, b: seq<File>, s: Search)
    requires Coherent(g, s)
    ensures Scan(g, u, a + b, s) == Scan(g, u, b, Scan(g, u, a, s))
    decreases |a|
  {
    if a == [] {
      assert a + b == b;
    } else {
      assert (a + b)[0] == a[0] && (a + b)[1..] == a[1..] + b;
      ScanConcat(g, u, a[1..], b, ScanOne(g, a[0], s));
    }
  }

  /** The search on its way along `p` to `v`, with everything that can be skipped behind it. */
  ghost predicate OnTheWay(g: Graph, p: seq<File>, v: File, i: nat, s: Search)
    requires i <= |p|
  {
    && Coherent(g, s) && s.path == p[..i] && DoneClosed(g, s) && Off(s.cycles, v)
    && (forall x, j, c :: j < i && SkippedBy(g, p, v, x, j, c) ==> x in s.visited)
    && (forall x :: x in Done(s) ==> !Leads(g, Elements(p[..i]), x, v))
  }

  lemma NotYet(g: Graph, p: seq<File>, v: File, i: nat, s: Search)
    requires i <= |p| && OnTheWay(g, p, v, i, s) && Walk(g, p + [v]) && NoDup(p + [v]) && v in g
    ensures (p + [v])[i] !in s.visited && (p + [v])[i] in g
  {
    var q := p + [v];
    var avoid := Elements(p[..i]);
    assert q[..i] == p[..i];
    FrontAndRest(q, i);
    assert Leads(g, avoid, q[i], v) by {
      forall k | 0 <= k < |q[i..]| - 1
        ensures Edge(g, q[i..][k], q[i..][k + 1])
      {
        assert Edge(g, q[i + k], q[i + k + 1]);
      }
      if i < |p| {
        assert Edge(g, q[i], q[i + 1]);
      }
      assert Chain(g, avoid, q[i..], q[i], v);
    }
    assert q[i] in q[i..];
    assert q[i] !in p[..i];
  }

  /** What is skipped at p[i] keeps the search on its way. */
  lemma SkipsAhead(g: Graph, p: seq<File>, v: File, i: nat, s: Search, ns: seq<File>)
    requires i < |p| && OnTheWay(g, p, v, i, s) && Walk(g, p + [v]) && NoDup(p + [v]) && v in g
    requires p[i] in g && p[i] !in s.visited
    requires forall n :: n in ns <==> n in g[p[i]].imports && n in g && !Leads(g, Elements(p[..i + 1]), n, v)
    ensures OnTheWay(g, p, v, i + 1, Scan(g, p[i], ns, Enter(p[i], s)))
  {
    var u, s1 := p[i], Enter(p[i], s);
    var r := Scan(g, u, ns, s1);
    var avoid := Elements(p[..i + 1]);
    assert p[..i + 1] == p[..i] + [u];
    assert Done(s1) == Done(s);
    ScanCloses(g, u, ns, s1);
    forall x | x in Done(r)
      ensures !Leads(g, avoid, x, v)
    {
      if Leads(g, avoid, x, v) {
        if x in s1.visited {
          LeadsFewer(g, avoid, Elements(p[..i]), x, v);
        } else {
          var n := ScanIsLed(g, u, ns, s1, x);
          LeadsFewer(g, s1.visited, avoid, n, x);
          LeadsOn(g, avoid, n, x, v);
        }
      }
    }
    forall x, j, c | j < i + 1 && SkippedBy(g, p, v, x, j, c)
      ensures x in r.visited
    {
      if j == i {
        LeadsEnds(g, avoid, c, x);
        assert c in ns && c in Done(r);
        ClosedHoldsLed(g, avoid, Done(r), c, x);
      }
    }
    FrontAndRest(p + [v], i + 1);
    assert (p + [v])[..i + 1] == p[..i + 1] && (p + [v])[i + 1..][|p| - i - 1] == v;
    LeadsToItself(g, avoid, v);
    ScanOff(g, u, ns, s1, v);
  }

  /** The imports of p[i] as listed for hiding `v`. */
  ghost predicate LeadsTheWayWith(g: Graph, p: seq<File>, v: File, i: nat, first: seq<File>, rest: seq<File>)
    requires i < |p|
  {
    && p[i] in g && g[p[i]].imports == first + [(p + [v])[i + 1]] + rest
    && forall n :: n in first <==> n in g[p[i]].imports && n in g && !Leads(g, Elements(p[..i + 1]), n, v)
  }

  ghost predicate LeadsTheWay(g: Graph, p: seq<File>, v: File, i: nat)
    requires i < |p|
  {
    exists first, rest :: LeadsTheWayWith(g, p, v, i, first, rest)
  }

  ghost predicate Prepared(g: Graph, p: seq<File>, v: File) {
    forall i :: 0 <= i < |p| ==> LeadsTheWay(g, p, v, i)
  }

  /** From anywhere on the way, the search enters and leaves `v` without reporting a cycle through it. */
  lemma {:induction false} TheWayHides(g: Graph, p: seq<File>, v: File, i: nat, s: Search)
    requires i <= |p| && Hides(g, p, v) && Prepared(g, p, v) && OnTheWay(g, p, v, i, s)
    ensures (p + [v])[i] in g && (p + [v])[i] !in s.visited
    ensures var r := Visit(g, (p + [v])[i], s); Off(r.cycles, v) && v in r.visited
    decreases |p| - i
  {
    NotYet(g, p, v, i, s);
    if i == |p| {
      EndOfTheWay(g, p, v, s);
    } else {
      assert LeadsTheWay(g, p, v, i);
      var first, rest :| LeadsTheWayWith(g, p, v, i, first, rest);
      SkipsAhead(g, p, v, i, s, first);
      var r := Scan(g, p[i], first, Enter(p[i], s));
      TheWayHides(g, p, v, i + 1, r);
      BackFromTheWay(g, p, v, i, s, first, rest);
    }
  }

  /** Once `v` is behind it, the search reports no cycle through `v` on its way back. */
  lemma BackFromTheWay(g: Graph, p: seq<File>, v: File, i: nat, s: Search, first: seq<File>, rest: seq<File>)
    requires i < |p| && NoDup(p + [v]) && Coherent(g, s) && s.path == p[..i] && LeadsTheWayWith(g, p, v, i, first, rest)
    requires p[i] !in s.visited
    requires var r, next := Scan(g, p[i], first, Enter(p[i], s)), (p + [v])[i + 1];
      && next in g && next !in r.visited
      && Off(Visit(g, next, r).cycles, v) && v in Visit(g, next, r).visited
    ensures var r := Visit(g, p[i], s); Off(r.cycles, v) && v in r.visited
  {
    var q, u, s1 := p + [v], p[i], Enter(p[i], s);
    var r1 := Scan(g, u, first, s1);
    var r2 := Visit(g, q[i + 1], r1);
    ScanConcat(g, u, first, [q[i + 1]] + rest, s1);
    assert first + ([q[i + 1]] + rest) == g[u].imports;
    assert ([q[i + 1]] + rest)[1..] == rest;
    FrontAndRest(q, i + 1);
    assert q[..i + 1] == p[..i] + [u] && q[i + 1..][|p| - i - 1] == v;
    ScanOff(g, u, rest, r2, v);
  }

  lemma EndOfTheWay(g: Graph, p: seq<File>, v: File, s: Search)
    requires Hides(g, p, v) && OnTheWay(g, p, v, |p|, s) && v !in s.visited
    ensures var r := Visit(g, v, s); Off(r.cycles, v) && v in r.visited
  {
    var s1, r := Enter(v, s), Visit(g, v, s);
    assert p[..|p|] == p && s1.path == p + [v];
    assert SkippedFiles(g, p, v) <= s.visited by {
      forall x | x in SkippedFiles(g, p, v)
        ensures x in s.visited
      {
        var j, c :| SkippedBy(g, p, v, x, j, c);
      }
    }
    forall x, y | x in r.visited && x !in s.visited && y in p + [v]
      ensures !Edge(g, x, y)
    {
      VisitIsLed(g, v, s, x);
      LeadsFewer(g, s.visited, Elements(p) + SkippedFiles(g, p, v), v, x);
    }
    assert forall n :: n in g[v].imports && n in g ==> Edge(g, v, n);
    ScanSpares(g, v, g[v].imports, s1, p + [v], v);
  }

  lemma {:induction false} SomeListing(s: set<File>) returns (r: seq<File>)
    ensures NoDup(r) && Elements(r) == s
  {
    if s == {} {
      r := [];
    } else {
      var x :| x in s;
      r := SomeListing(s - {x});
      AppendNew(r, x);
      r := r + [x];
    }
  }

  lemma HidingGraphAt(g: Graph, p: seq<File>, v: File, i: nat)
    requires Walk(g, p + [v]) && NoDup(p + [v]) && i < |p|
    ensures p[i] in g && HidingGraph(g, p, v)[p[i]].imports == HidingImports(g, p, v, i)
  {
    var q := p + [v];
    assert Edge(g, q[i], q[i + 1]);
    assert q[IndexOf(p, p[i])] == q[i];
  }

  lemma HidingGraphLeads(g: Graph, p: seq<File>, v: File, i: nat)
    requires Walk(g, p + [v]) && NoDup(p + [v]) && i < |p|
    ensures LeadsTheWay(HidingGraph(g, p, v), p, v, i)
  {
    var h := HidingGraph(g, p, v);
    HidingGraphAt(g, p, v, i);
    HidingGraphImports(g, p, v);
    SameHarmless(g, h, Elements(p[..i + 1]), v);
    assert LeadsTheWayWith(h, p, v, i, Harmless(g, Elements(p[..i + 1]), v, g[p[i]].imports), g[p[i]].imports);
  }

  lemma SameHarmless(g: Graph, h: Graph, avoid: set<File>, v: File)
    requires SameImports(g, h)
    ensures forall n :: Leads(g, avoid, n, v) <==> Leads(h, avoid, n, v)
  {
    forall n
      ensures Leads(g, avoid, n, v) <==> Leads(h, avoid, n, v)
    {
      if Leads(g, avoid, n, v) {
        SameLeads(g, h, avoid, n, v);
      }
      if Leads(h, avoid, n, v) {
        SameLeads(h, g, avoid, n, v);
      }
    }
  }

  lemma StartOfTheWay(g: Graph, p: seq<File>, v: File)
    ensures OnTheWay(g, p, v, 0, EMPTY_SEARCH)
  {
  }

  lemma RestListed(order: seq<File>, all: set<File>)
    requires Elements(order) == all && order != []
    ensures Elements(order[1..]) <= all
  {
  }

  /** A graph prepared for hiding `v` leaves it unmarked if the path comes first. */
  lemma PreparedMisses(h: Graph, p: seq<File>, v: File, order: seq<File>)
    requires Hides(h, p, v) && Prepared(h, p, v)
    requires Elements(order) == h.Keys && order != [] && order[0] == (p + [v])[0]
    ensures Off(DetectCycles(h, order), v)
  {
    StartOfTheWay(h, p, v);
    TheWayHides(h, p, v, 0, EMPTY_SEARCH);
    RestListed(order, h.Keys);
    SearchOff(h, order[1..], Visit(h, order[0], EMPTY_SEARCH), v);
  }

  /** A file that can hide is left unmarked when imports and files are listed in a suitable order. */
  lemma HidesIsMissed(g: Graph, p: seq<File>, v: File) returns (h: Graph, order: seq<File>)
    requires Hides(g, p, v)
    ensures SameImports(g, h) && Unmarked(h) && NoDup(order) && Elements(order) == h.Keys
    ensures v in h && Circular(h, v) && Off(DetectCycles(h, order), v)
  {
    h := HidingGraph(g, p, v);
    HidingGraphImports(g, p, v);
    SameHides(g, h, p, v);
    forall i | 0 <= i < |p|
      ensures LeadsTheWay(h, p, v, i)
    {
      HidingGraphLeads(g, p, v, i);
    }
    var first := (p + [v])[0];
    assert first in h by {
      if p != [] {
        assert Edge(h, (p + [v])[0], (p + [v])[1]);
      }
    }
    var rest := SomeListing(h.Keys - {first});
    order := [first] + rest;
    FirstListed(first, rest, h.Keys);
    PreparedMisses(h, p, v, order);
  }

  lemma FirstListed(first: File, rest: seq<File>, all: set<File>)
    requires first in all && NoDup(rest) && Elements(rest) == all - {first}
    ensures NoDup([first] + rest) && Elements([first] + rest) == all
  {
    assert first !in Elements(rest);
    assert forall x :: x in [first] + rest <==> x == first || x in Elements(rest);
  }

  // ---- the theorem -----------------------------------------------------------------------------

  ghost predicate Unmarked(g: Graph) {
    forall f :: f in g ==> !g[f].isCircular
  }

  /** One run marks every file on a cycle. */
  ghost predicate MarksAll(g: Graph, order: seq<File>)
    requires Elements(order) == g.Keys
  {
    forall v :: v in g && Circular(g, v) ==> Marked(g, DetectCycles(g, order))[v].isCircular
  }

  /** Every run does, however the files and their imports are listed. */
  ghost predicate MarkedInEveryOrder(g: Graph) {
    forall h, order :: SameImports(g, h) && Unmarked(h) && NoDup(order) && Elements(order) == h.Keys ==>
      MarksAll(h, order)
  }

  /**
    Exactly when marking is complete: in every order, every file on an import cycle is marked if
    and only if no file of the graph can hide.
  */
  lemma MarkingCompleteIff(g: Graph)
    ensures MarkedInEveryOrder(g) <==> !exists p, v :: Hides(g, p, v)
  {
    if exists p, v :: Hides(g, p, v) {
      var p, v :| Hides(g, p, v);
      HiderEscapes(g, p, v);
    }
    if !exists p, v :: Hides(g, p, v) {
      forall h, order | SameImports(g, h) && Unmarked(h) && NoDup(order) && Elements(order) == h.Keys
        ensures MarksAll(h, order)
      {
        NoneMissed(g, h, order);
      }
    }
  }

  lemma HiderEscapes(g: Graph, p: seq<File>, v: File)
    requires Hides(g, p, v)
    ensures !MarkedInEveryOrder(g)
  {
    var h, order := HidesIsMissed(g, p, v);
    assert !MarksAll(h, order);
  }

  lemma NoneMissed(g: Graph, h: Graph, order: seq<File>)
    requires SameImports(g, h) && Unmarked(h) && Elements(order) == h.Keys
    requires !exists p, v :: Hides(g, p, v)
    ensures MarksAll(h, order)
  {
    forall v | v in h && Circular(h, v)
      ensures Marked(h, DetectCycles(h, order))[v].isCircular
    {
      if Off(DetectCycles(h, order), v) {
        MissedHides(h, order, v);
        var p :| Hides(h, p, v);
        SameHides(h, g, p, v);
      }
    }
  }

  // ---- a sufficient condition on cycles ----------------------------------------------------------

  ghost predicate SharesEdge(c: seq<File>, d: seq<File>) {
    exists i, j :: 0 <= i < |c| - 1 && 0 <= j < |d| - 1 && c[i] == d[j] && c[i + 1] == d[j + 1]
  }

  /** Simple cycles with a common edge run through the same files. */
  ghost predicate CyclesApart(g: Graph) {
    forall c, d :: SimpleCycle(g, c) && SimpleCycle(g, d) && SharesEdge(c, d) ==> Elements(c) == Elements(d)
  }

  lemma {:induction false} SimpleChain(g: Graph, avoid: set<File>, p: seq<File>, u: File, v: File)
    returns (q: seq<File>)
    requires Chain(g, avoid, p, u, v)
    ensures Chain(g, avoid, q, u, v) && NoDup(q)
    decreases |p|
  {
    if NoDup(p) {
      q := p;
    } else {
      var i, j :| 0 <= i < j < |p| && p[i] == p[j];
      var r := p[..i] + p[j..];
      forall k | 0 <= k < |r| - 1
        ensures Edge(g, r[k], r[k + 1])
      {
        if k < i {
          assert r[k] == p[k] && r[k + 1] == p[k + 1];
          assert Edge(g, p[k], p[k + 1]);
        } else {
          assert r[k] == p[k - i + j] && r[k + 1] == p[k - i + j + 1];
          assert Edge(g, p[k - i + j], p[k - i + j + 1]);
        }
      }
      assert Elements(r) <= Elements(p);
      q := SimpleChain(g, avoid, r, u, v);
    }
  }

  lemma PartOfChain(g: Graph, avoid: set<File>, w: seq<File>, i: nat, j: nat)
    requires Walk(g, w) && i <= j < |w| && w[i] in g && forall k :: i <= k <= j ==> w[k] !in avoid
    ensures Leads(g, avoid, w[i], w[j])
  {
    var p := w[i..j + 1];
    forall k | 0 <= k < |p| - 1
      ensures Edge(g, p[k], p[k + 1])
    {
      assert Edge(g, w[i + k], w[i + k + 1]);
    }
    assert Chain(g, avoid, p, w[i], w[j]);
  }

  /** A file on a cycle lies on a simple cycle, written from that file on. */
  lemma SimpleCycleThrough(g: Graph, v: File) returns (w: seq<File>)
    requires Circular(g, v)
    ensures w != [] && w[0] == v && NoDup(w) && Cycle(g, w + [v])
  {
    var c :| Cycle(g, c) && v in c;
    var k :| 0 <= k < |c| && c[k] == v;
    var x;
    if k == 0 {
      x := c[|c| - 2];
      assert Edge(g, c[|c| - 2], c[|c| - 1]) && Edge(g, c[0], c[1]);
      PartOfChain(g, {}, c, 0, |c| - 2);
    } else {
      x := c[k - 1];
      assert Edge(g, c[k - 1], c[k]) && Edge(g, c[0], c[1]);
      PartOfChain(g, {}, c, k, |c| - 1);
      PartOfChain(g, {}, c, 0, k - 1);
      LeadsOn(g, {}, v, c[0], x);
    }
    var p :| Chain(g, {}, p, v, x);
    w := SimpleChain(g, {}, p, v, x);
    var d := w + [v];
    forall i | 0 <= i < |d| - 1
      ensures Edge(g, d[i], d[i + 1])
    {
      if i < |w| - 1 {
        assert Edge(g, w[i], w[i + 1]);
      }
    }
  }

  /** Where a cycle through a hiding file first meets a skipped file. */
  lemma {:induction false} FirstSkipped(g: Graph, p: seq<File>, v: File, w: seq<File>, k: nat) returns (m: nat)
    requires Hides(g, p, v) && w != [] && w[0] == v && Cycle(g, w + [v]) && k < |w|
    requires forall i :: 0 <= i <= k ==> w[i] !in Elements(p) + SkippedFiles(g, p, v)
    ensures k < m < |w| && w[m] in SkippedFiles(g, p, v)
    decreases |w| - k
  {
    var d := w + [v];
    assert forall i :: 0 <= i <= k ==> d[i] == w[i];
    assert Edge(g, d[0], d[1]) && Edge(g, d[k], d[k + 1]);
    PartOfChain(g, Elements(p) + SkippedFiles(g, p, v), d, 0, k);
    assert d[k + 1] !in p + [v];
    if d[k + 1] in SkippedFiles(g, p, v) {
      m := k + 1;
    } else {
      m := FirstSkipped(g, p, v, w, k + 1);
    }
  }

  /** From there the cycle returns to the path before it comes back to `v`. */
  lemma {:induction false} ReturnToPath(g: Graph, avoid: set<File>, v: File, c: File, d: seq<File>, k: nat)
    returns (m: nat)
    requires Walk(g, d) && k < |d| && d[|d| - 1] == v && v !in avoid
    requires Leads(g, avoid, c, d[k]) && !Leads(g, avoid, c, v)
    ensures k < m < |d| - 1 && d[m] in avoid && Leads(g, avoid, c, d[m - 1])
    decreases |d| - k
  {
    LeadsEnds(g, avoid, c, d[k]);
    assert k < |d| - 1;
    assert Edge(g, d[k], d[k + 1]);
    if d[k + 1] in avoid {
      m := k + 1;
    } else {
      LeadsEdge(g, avoid, d[k], d[k + 1]);
      LeadsOn(g, avoid, c, d[k], d[k + 1]);
      m := ReturnToPath(g, avoid, v, c, d, k + 1);
    }
  }

  /** The cycle made of a piece of the path and of skipped files. */
  lemma CycleBehind(g: Graph, p: seq<File>, i: nat, j: nat, c: File, y: File) returns (d: seq<File>)
    requires Walk(g, p) && NoDup(p) && j <= i < |p| && Edge(g, p[i], c) && Edge(g, y, p[j])
    requires Leads(g, Elements(p[..i + 1]), c, y)
    ensures SimpleCycle(g, d) && |d| >= 2 && d[|d| - 2] == y && d[|d| - 1] == p[j]
    ensures forall x :: x in d ==> x in p || Leads(g, Elements(p[..i + 1]), c, x)
  {
    var avoid := Elements(p[..i + 1]);
    var q0 :| Chain(g, avoid, q0, c, y);
    var q := SimpleChain(g, avoid, q0, c, y);
    var a := p[j..i + 1];
    var b := a + q;
    d := b + [p[j]];
    forall k | 0 <= k < |d| - 1
      ensures Edge(g, d[k], d[k + 1])
    {
      if k < |a| - 1 {
        assert Edge(g, p[j + k], p[j + k + 1]);
      } else if |a| <= k < |b| - 1 {
        assert Edge(g, q[k - |a|], q[k - |a| + 1]);
      }
    }
    forall x | x in a
      ensures x in avoid
    {
      var k :| 0 <= k < |a| && a[k] == x;
      assert p[..i + 1][j + k] == x;
    }
    forall k, l | 0 <= k < l < |b|
      ensures b[k] != b[l]
    {
      if k < |a| <= l {
        assert b[k] in a && b[l] in Elements(q);
      } else if l < |a| {
        assert b[k] == p[j + k] && b[l] == p[j + l];
      }
    }
    assert d[..|d| - 1] == b;
    forall x | x in q
      ensures Leads(g, avoid, c, x)
    {
      var k :| 0 <= k < |q| && q[k] == x;
      assert forall l :: 0 <= l <= k ==> q[l] in Elements(q);
      PartOfChain(g, avoid, q, 0, k);
    }
  }

  /** A file that can hide lies on a simple cycle that shares an edge with one around it. */
  lemma HiderTouches(g: Graph, p: seq<File>, v: File)
    requires Hides(g, p, v)
    ensures !CyclesApart(g)
  {
    var w := SimpleCycleThrough(g, v);
    HiderIsOutside(g, p, v);
    var k := FirstSkipped(g, p, v, w, 0);
    var i, c :| SkippedBy(g, p, v, w[k], i, c);
    WalkFront(g, p, v);
    var e := CycleAround(g, p, v, w + [v], k, i, c);
    assert (w + [v])[..|w|] == w;
    assert v in Elements(w + [v]) && v !in Elements(e);
  }

  lemma HiderIsOutside(g: Graph, p: seq<File>, v: File)
    requires NoDup(p + [v])
    ensures v !in Elements(p) && v !in SkippedFiles(g, p, v)
  {
    FrontAndRest(p + [v], |p|);
    assert (p + [v])[..|p|] == p && (p + [v])[|p|..] == [v];
    assert v in [v];
  }

  /** Some simple cycle around `v` shares an edge with `d`, which passes through a skipped file. */
  lemma CycleAround(g: Graph, p: seq<File>, v: File, d: seq<File>, k: nat, i: int, c: File) returns (e: seq<File>)
    requires Walk(g, p) && NoDup(p) && v !in Elements(p) && Walk(g, d) && k < |d| && d[|d| - 1] == v
    requires SkippedBy(g, p, v, d[k], i, c)
    ensures SimpleCycle(g, e) && SharesEdge(d, e) && v !in e
  {
    var avoid := Elements(p[..i + 1]);
    assert v !in avoid by {
      assert avoid <= Elements(p);
    }
    var m := ReturnToPath(g, avoid, v, c, d, k);
    var j :| 0 <= j < |p[..i + 1]| && p[..i + 1][j] == d[m];
    assert Edge(g, d[m - 1], d[m - 1 + 1]);
    e := CycleBehind(g, p, i, j, c, d[m - 1]);
    assert d[m - 1] == e[|e| - 2] && d[m - 1 + 1] == e[|e| - 2 + 1];
  }

  lemma WalkFront(g: Graph, p: seq<File>, v: File)
    requires Walk(g, p + [v]) && NoDup(p + [v])
    ensures Walk(g, p) && NoDup(p)
  {
    var q := p + [v];
    assert forall k :: 0 <= k < |p| ==> p[k] == q[k];
    forall k | 0 <= k < |p| - 1
      ensures Edge(g, p[k], p[k + 1])
    {
      assert Edge(g, q[k], q[k + 1]);
    }
  }

  /** If no two simple cycles through different files share an edge, every order marks every file on a cycle. */
  lemma CyclesApartMarked(g: Graph)
    requires CyclesApart(g)
    ensures MarkedInEveryOrder(g)
  {
    if exists p, v :: Hides(g, p, v) {
      var p, v :| Hides(g, p, v);
      HiderTouches(g, p, v);
    } else {
      MarkingCompleteIff(g);
    }
  }
}
