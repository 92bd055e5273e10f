/**
  The breadth-first expansion of a knowledge graph from the nodes that match a question: three
  levels in the source, any number here.
*/
module GraphExpansion {
  import opened Sequences

  type Id = string

  /** `graph.neighbors` of every node. */
  type Graph = map<Id, set<Id>>

  datatype Link = Link(source: Id, target: Id)

  predicate WellFormed(g: Graph) {
    forall u :: u in g ==> g[u] <= g.Keys
  }

  // ---- distances, by walks ----------------------------------------------------------------------

  /** A walk of exactly `k` links leads from a start node to `v`. */
  ghost predicate Reach(g: Graph, start: set<Id>, k: nat, v: Id) {
    if k == 0 then v in start
    else exists u :: u in g && v in g[u] && Reach(g, start, k - 1, u)
  }

  ghost predicate Distance(g: Graph, start: set<Id>, k: nat, v: Id) {
    Reach(g, start, k, v) && forall j: nat :: j < k ==> !Reach(g, start, j, v)
  }

  ghost predicate Within(g: Graph, start: set<Id>, k: nat, v: Id) {
    exists j: nat :: j <= k && Reach(g, start, j, v)
  }

  /** A link from a node at some distance below `depth` to a node one step further away. */
  ghost predicate Forward(g: Graph, start: set<Id>, depth: nat, e: Link) {
    e.source in g && e.target in g[e.source] &&
    exists k: nat :: k < depth && Distance(g, start, k, e.source) && Distance(g, start, k + 1, e.target)
  }

  /** The next layer: new nodes linked from the nodes at distance `k`. */
  lemma NextLayer(g: Graph, start: set<Id>, k: nat, v: Id)
    ensures Distance(g, start, k + 1, v) <==>
            !Within(g, start, k, v) && exists u :: u in g && v in g[u] && Distance(g, start, k, u)
  {
    if Distance(g, start, k + 1, v) {
      var u :| u in g && v in g[u] && Reach(g, start, k, u);
      forall j: nat | j < k
        ensures !Reach(g, start, j, u)
      {
        if Reach(g, start, j, u) {
          assert Reach(g, start, j + 1, v);
        }
      }
      assert Distance(g, start, k, u);
    }
    if !Within(g, start, k, v) && exists u :: u in g && v in g[u] && Distance(g, start, k, u) {
      assert Reach(g, start, k + 1, v);
    }
  }

  lemma WithinNext(g: Graph, start: set<Id>, k: nat, v: Id)
    ensures Within(g, start, k + 1, v) <==> Within(g, start, k, v) || Distance(g, start, k + 1, v)
  {
    if Within(g, start, k + 1, v) && !Within(g, start, k, v) {
      var j: nat :| j <= k + 1 && Reach(g, start, j, v);
      assert j == k + 1;
    }
  }

  lemma ForwardNext(g: Graph, start: set<Id>, k: nat, e: Link)
    ensures Forward(g, start, k + 1, e) <==>
            Forward(g, start, k, e) ||
            (e.source in g && e.target in g[e.source] && Distance(g, start, k, e.source)
             && !Within(g, start, k, e.target))
  {
    if e.source in g && e.target in g[e.source] && Distance(g, start, k, e.source) && !Within(g, start, k, e.target) {
      NextLayer(g, start, k, e.target);
      assert Distance(g, start, k + 1, e.target);
    }
    if Forward(g, start, k + 1, e) && !Forward(g, start, k, e) {
      var j: nat :| j < k + 1 && Distance(g, start, j, e.source) && Distance(g, start, j + 1, e.target);
      assert j == k;
    }
  }

  // ---- the expansion ------------------------------------------------------------------------------

  /** One level: the links from the frontier to nodes not yet selected, and their targets. */
  method ExpandLevel(g: Graph, selected: set<Id>, frontier: set<Id>) returns (next: set<Id>, edges: seq<Link>)
    requires WellFormed(g) && frontier <= g.Keys
    ensures forall v :: v in next <==> v !in selected && exists u :: u in frontier && v in g[u]
    ensures forall e :: e in edges <==> e.source in frontier && e.target in g[e.source] && e.target !in selected
    ensures NoDup(edges) && next <= g.Keys
  {
    next, edges := {}, [];
    var nodes := frontier;
    while nodes != {}
      invariant nodes <= frontier && next <= g.Keys && NoDup(edges)
      invariant forall v :: v in next <==> v !in selected && exists u :: u in frontier - nodes && v in g[u]
      invariant forall e :: e in edges <==>
                  e.source in frontier - nodes && e.target in g[e.source] && e.target !in selected
      decreases nodes
    {
      var n :| n in nodes;
      var neighbors := g[n];
      ghost var next0, edges0 := next, edges;
      while neighbors != {}
        invariant neighbors <= g[n] && next <= g.Keys && NoDup(edges)
        invariant forall v :: v in next <==> v in next0 || (v !in selected && v in g[n] - neighbors)
        invariant forall e :: e in edges <==>
                    e in edges0 || (e.source == n && e.target in g[n] - neighbors && e.target !in selected)
        decreases neighbors
      {
        var neighbor :| neighbor in neighbors;
        if neighbor !in selected {
          next := next + {neighbor};
          AppendNew(edges, Link(n, neighbor));
          edges := edges + [Link(n, neighbor)];
        }
        neighbors := neighbors - {neighbor};
      }
      nodes := nodes - {n};
    }
  }

  /**
    Expansion is exact: the selected nodes are those within `depth` links of the start, the
    recorded edges are the forward links, each once, and both ends of every edge are selected,
    so that the later filter on endpoints drops nothing.
  */
  method Expand(g: Graph, start: set<Id>, depth: nat) returns (selected: set<Id>, edges: seq<Link>)
    requires WellFormed(g) && start <= g.Keys
    ensures forall v :: v in selected <==> Within(g, start, depth, v)
    ensures forall e :: e in edges <==> Forward(g, start, depth, e)
    ensures NoDup(edges)
    ensures forall e :: e in edges ==> e.source in selected && e.target in selected
  {
    selected, edges := start, [];
    var frontier := start;
    forall v
      ensures Within(g, start, 0, v) <==> v in start
    {
      assert Reach(g, start, 0, v) <==> v in start;
    }
    for k := 0 to depth
      invariant frontier <= g.Keys && NoDup(edges)
      invariant forall v :: v in selected <==> Within(g, start, k, v)
      invariant forall v :: v in frontier <==> Distance(g, start, k, v)
      invariant forall e :: e in edges <==> Forward(g, start, k, e)
    {
      var next, found := ExpandLevel(g, selected, frontier);
      forall v
        ensures v in next <==> Distance(g, start, k + 1, v)
        ensures v in selected || v in next <==> Within(g, start, k + 1, v)
      {
        NextLayer(g, start, k, v);
        WithinNext(g, start, k, v);
      }
      forall e
        ensures e in edges || e in found <==> Forward(g, start, k + 1, e)
      {
        ForwardNext(g, start, k, e);
      }
      forall e | e in edges
        ensures e !in found
      {
        var j: nat :| j < k && Distance(g, start, j, e.source);
        assert !Distance(g, start, k, e.source);
      }
      NoDupConcat(edges, found);
      edges := edges + found;
      selected := selected + next;
      frontier := next;
    }
    forall e | e in edges
      ensures e.source in selected && e.target in selected
    {
      var k: nat :| k < depth && Distance(g, start, k, e.source) && Distance(g, start, k + 1, e.target);
      assert Reach(g, start, k, e.source) && Reach(g, start, k + 1, e.target);
    }
  }

  lemma NoDupConcat(a: seq<Link>, b: seq<Link>)
    requires NoDup(a) && NoDup(b) && forall e :: e in a ==> e !in b
    ensures NoDup(a + b)
  {
    forall i, j | 0 <= i < j < |a + b|
      ensures (a + b)[i] != (a + b)[j]
    {
      if i < |a| <= j {
        assert a[i] in a && b[j - |a|] in b;
      }
    }
  }

  /** The three levels of the source. */
  method ExpandQuery(g: Graph, start: set<Id>) returns (selected: set<Id>, edges: seq<Link>)
    requires WellFormed(g) && start <= g.Keys
    ensures forall v :: v in selected <==> Within(g, start, 3, v)
    ensures forall e :: e in edges <==> Forward(g, start, 3, e)
    ensures NoDup(edges) && forall e :: e in edges ==> e.source in selected && e.target in selected
  {
    selected, edges := Expand(g, start, 3);
  }
}
