/**
 * The cycle check over a list of directed edges: a depth-first search in three colours.
 */
module Acyclic {
  type Node(==, !new)

  datatype Edge = Edge(source: Node, target: Node)
  datatype Color = WHITE | GRAY | BLACK

  /** A walk along the edges. */
  ghost predicate IsWalk(edges: seq<Edge>, w: seq<Node>) {
    w != [] && forall i :: 0 <= i < |w| - 1 ==> Joined(edges, w, i)
  }

  ghost predicate Joined(edges: seq<Edge>, w: seq<Node>, i: nat)
    requires i < |w| - 1
  {
    Edge(w[i], w[i + 1]) in edges
  }

  /** A walk of at least one edge that comes back to where it starts; a self-loop is one. */
  ghost predicate IsCycle(edges: seq<Edge>, w: seq<Node>) {
    IsWalk(edges, w) && |w| >= 2 && w[0] == w[|w| - 1]
  }

  ghost predicate HasCycle(edges: seq<Edge>) {
    exists w: seq<Node> :: IsCycle(edges, w)
  }

  /** What adj lists are edges, between nodes it knows. */
  ghost predicate Known(adj: map<Node, seq<Node>>, edges: seq<Edge>) {
    forall u, i :: u in adj && 0 <= i < |adj[u]| ==> Edge(u, adj[u][i]) in edges && adj[u][i] in adj
  }

  /** adj lists every edge. */
  ghost predicate Lists(adj: map<Node, seq<Node>>, edges: seq<Edge>) {
    forall e :: e in edges ==> e.source in adj && e.target in adj && e.target in adj[e.source]
  }

  /** Every edge goes to a node of lower rank. */
  ghost predicate Descends(edges: seq<Edge>, rank: map<Node, int>) {
    forall e :: e in edges ==> e.source in rank && e.target in rank && rank[e.target] < rank[e.source]
  }

  lemma {:induction false} WalkDescends(edges: seq<Edge>, rank: map<Node, int>, w: seq<Node>)
    requires Descends(edges, rank) && IsWalk(edges, w) && |w| >= 2
    ensures w[0] in rank && w[|w| - 1] in rank && rank[w[|w| - 1]] < rank[w[0]]
    decreases |w|
  {
    assert Joined(edges, w, 0);
    if |w| > 2 {
      var rest := w[1..];
      forall i | 0 <= i < |rest| - 1
        ensures Joined(edges, rest, i)
      {
        assert Joined(edges, w, i + 1);
      }
      WalkDescends(edges, rank, rest);
    }
  }

  /** Each node of the edge list, once, and its targets. */
  method Adjacency(edges: seq<Edge>) returns (adj: map<Node, seq<Node>>, nodes: seq<Node>)
    ensures Known(adj, edges) && Lists(adj, edges)
    ensures forall u :: u in adj <==> u in nodes
    ensures forall u :: u in adj ==> exists e :: e in edges && (e.source == u || e.target == u)
  {
    adj, nodes := map[], [];
    for i := 0 to |edges|
      invariant Known(adj, edges[..i]) && Lists(adj, edges[..i])
      invariant forall u :: u in adj <==> u in nodes
      invariant forall u :: u in adj ==> exists e :: e in edges && (e.source == u || e.target == u)
    {
      var e := edges[i];
      assert e in edges && edges[..i + 1] == edges[..i] + [e];
      if e.source !in adj {
        nodes := nodes + [e.source];
        adj := adj[e.source := []];
      }
      adj := adj[e.source := adj[e.source] + [e.target]];
      if e.target !in adj {
        nodes := nodes + [e.target];
        adj := adj[e.target := []];
      }
    }
    assert edges[..|edges|] == edges;
  }

  ghost function Whites(color: map<Node, Color>): set<Node> {
    set u | u in color && color[u].WHITE?
  }

  ghost predicate Lowers(adj: map<Node, seq<Node>>, rank: map<Node, int>) {
    forall u, i :: u in rank && u in adj && 0 <= i < |adj[u]| ==> adj[u][i] in rank && rank[adj[u][i]] < rank[u]
  }

  /** What is black has a rank, and its edges go to what is black and ranks lower. */
  ghost predicate Ranked(adj: map<Node, seq<Node>>, color: map<Node, Color>, rank: map<Node, int>, next: int) {
    && color.Keys == adj.Keys
    && (forall u :: u in rank <==> u in color && color[u].BLACK?)
    && (forall u :: u in rank ==> rank[u] < next)
    && Lowers(adj, rank)
  }

  /** The gray nodes are the walk to here. */
  ghost predicate OnPath(edges: seq<Edge>, color: map<Node, Color>, path: seq<Node>) {
    && (path != [] ==> IsWalk(edges, path))
    && (forall u :: u in path <==> u in color && color[u].GRAY?)
  }

  lemma {:induction false} Entered(adj: map<Node, seq<Node>>, edges: seq<Edge>, color: map<Node, Color>,
        rank: map<Node, int>, next: int,
                path: seq<Node>, u: Node)
    requires Ranked(adj, color, rank, next) && OnPath(edges, color, path) && u in color && color[u].WHITE?
    requires path != [] ==> Edge(path[|path| - 1], u) in edges
    ensures Ranked(adj, color[u := GRAY], rank, next) && OnPath(edges, color[u := GRAY], path + [u])
    ensures Whites(color[u := GRAY]) < Whites(color)
  {
    assert u in Whites(color) && u !in Whites(color[u := GRAY]);
    forall i | 0 <= i < |path|
      ensures Joined(edges, path + [u], i)
    {
      assert i < |path| - 1 ==> Joined(edges, path, i);
    }
  }

  lemma {:induction false} Left(adj: map<Node, seq<Node>>, edges: seq<Edge>, color: map<Node, Color>,
        rank: map<Node, int>, next: int,
                path: seq<Node>, u: Node)
    requires Ranked(adj, color, rank, next) && OnPath(edges, color, path + [u]) && u !in path
    requires u in adj && forall j :: 0 <= j < |adj[u]| ==> adj[u][j] in rank
    ensures Ranked(adj, color[u := BLACK], rank[u := next], next + 1) && OnPath(edges, color[u := BLACK], path)
    ensures Whites(color[u := BLACK]) == Whites(color)
  {
    var here := path + [u];
    assert here[|path|] == u;
    assert u in color && color[u].GRAY?;
    forall i | 0 <= i < |path| - 1
      ensures Joined(edges, path, i)
    {
      assert Joined(edges, here, i);
    }
    forall v
      ensures v in path <==> v in color[u := BLACK] && color[u := BLACK][v].GRAY?
    {
      assert v in here <==> v in path || v == u;
    }
  }

  class Search {
    const adj: map<Node, seq<Node>>
    ghost const edges: seq<Edge>
    var color: map<Node, Color>
    ghost var rank: map<Node, int>
    /** Above every rank given so far. */
    ghost var next: int

    ghost predicate Valid(path: seq<Node>)
      reads this
    {
      Ranked(adj, color, rank, next) && OnPath(edges, color, path)
    }

    constructor (adj: map<Node, seq<Node>>, ghost edges: seq<Edge>)
      requires Known(adj, edges)
      ensures Valid([]) && this.adj == adj && this.edges == edges
    {
      this.adj, this.edges := adj, edges;
      color := map u | u in adj :: WHITE;
      rank, next := map[], 0;
    }

    /** Search from u, reached along the path; false when that closes a cycle. */
    method Visit(u: Node, ghost path: seq<Node>) returns (ok: bool)
      requires Known(adj, edges) && Valid(path) && u in color && color[u].WHITE?
      requires path != [] ==> Edge(path[|path| - 1], u) in edges
      modifies this
      ensures ok ==> Valid(path) && u in rank && old(rank.Keys) <= rank.Keys && Whites(color) < old(Whites(color))
      ensures !ok ==> HasCycle(edges)
      decreases Whites(color)
    {
      ghost var here := path + [u];
      Entered(adj, edges, color, rank, next, path, u);
      color := color[u := GRAY];
      for i := 0 to |adj[u]|
        invariant Valid(here) && Whites(color) < old(Whites(color)) && old(rank.Keys) <= rank.Keys
        invariant forall j :: 0 <= j < i ==> adj[u][j] in rank
      {
        var v := adj[u][i];
        assert v in color && Edge(u, v) in edges;
        assert color[v].GRAY? <==> v in here;
        if color[v].GRAY? {
          ClosesCycle(here, v);
          return false;
        }
        if color[v].WHITE? {
          var deeper := Visit(v, here);
          if !deeper {
            return false;
          }
        } else {
          NotGray(v, here);
        }
      }
      Left(adj, edges, color, rank, next, path, u);
      color := color[u := BLACK];
      rank, next := rank[u := next], next + 1;
      ok := true;
    }

    lemma {:induction false} NotGray(v: Node, path: seq<Node>)
      requires Valid(path) && v in color && !color[v].WHITE? && (color[v].GRAY? ==> v !in path)
      ensures v in rank
    {
      assert color[v].GRAY? ==> v in path;
    }

    lemma {:induction false} ClosesCycle(here: seq<Node>, v: Node)
      requires Valid(here) && here != [] && v in here && Edge(here[|here| - 1], v) in edges
      ensures HasCycle(edges)
    {
      var k :| 0 <= k < |here| && here[k] == v;
      var w := here[k..] + [v];
      forall i | 0 <= i < |w| - 1
        ensures Joined(edges, w, i)
      {
        if k + i < |here| - 1 {
          assert Joined(edges, here, k + i);
        }
      }
      assert IsCycle(edges, w);
    }
  }

  /** Search from every node not yet seen; ranks for all of them, or a cycle. */
  method SearchAll(adj: map<Node, seq<Node>>, nodes: seq<Node>, ghost edges: seq<Edge>)
      returns (ok: bool, ghost rank: map<Node, int>)
    requires Known(adj, edges) && forall u :: u in nodes ==> u in adj
    ensures ok ==> (forall u :: u in nodes ==> u in rank) && Lowers(adj, rank)
    ensures !ok ==> HasCycle(edges)
  {
    var search := new Search(adj, edges);
    for i := 0 to |nodes|
      invariant search.Valid([]) && search.adj == adj && search.edges == edges
      invariant forall j :: 0 <= j < i ==> nodes[j] in search.rank
    {
      if search.color[nodes[i]].WHITE? {
        var found := search.Visit(nodes[i], []);
        if !found {
          return false, map[];
        }
      } else {
        search.NotGray(nodes[i], []);
      }
    }
    return true, search.rank;
  }

  /** The check is exact: it holds if and only if no walk along the edges comes back. */
  method IsAcyclic(edges: seq<Edge>) returns (ok: bool)
    ensures ok <==> !HasCycle(edges)
  {
    var adj, nodes := Adjacency(edges);
    ghost var rank;
    ok, rank := SearchAll(adj, nodes, edges);
    if ok {
      NoCycle(edges, adj, rank);
    }
  }

  lemma {:induction false} NoCycle(edges: seq<Edge>, adj: map<Node, seq<Node>>, rank: map<Node, int>)
    requires Lists(adj, edges) && adj.Keys <= rank.Keys
    requires Lowers(adj, rank)
    ensures !HasCycle(edges)
  {
    forall w: seq<Node> | IsWalk(edges, w) && |w| >= 2
      ensures !IsCycle(edges, w)
    {
      WalkDescends(edges, rank, w);
    }
  }
}
