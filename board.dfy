/**
 * The fixed Toy Battle map: 17 vertices and 24 undirected edges, and the vertex and
 * adjacency tables that the game state's constructor fills from them.
 */
module Board {
  import opened Wrappers
  import opened OrderedMaps
  import opened GameTypes

  const VertexData: seq<(string, VertexType)> := [
    ("X", BaseVertex), ("Y", BaseVertex),
    ("S1", SpecialVertex), ("S2", SpecialVertex), ("S3", SpecialVertex), ("S4", SpecialVertex),
    ("X1", GrayVertex), ("X2", GrayVertex), ("X3", GrayVertex), ("X4", GrayVertex),
    ("Y1", GrayVertex), ("Y2", GrayVertex), ("Y3", GrayVertex), ("Y4", GrayVertex),
    ("M1", GrayVertex), ("M2", GrayVertex), ("M3", GrayVertex)
  ]

  const Edges: seq<(string, string)> := [
    ("X", "X1"), ("X", "X2"), ("X1", "Y1"), ("X2", "Y2"),
    ("Y1", "M1"), ("Y2", "M2"), ("Y1", "S1"), ("Y2", "M3"),
    ("Y1", "M2"), ("Y2", "S2"), ("S1", "M1"), ("S2", "M3"),
    ("Y", "X3"), ("Y", "X4"), ("X3", "Y3"), ("X4", "Y4"),
    ("Y3", "M1"), ("Y4", "M2"), ("Y3", "S3"), ("Y4", "M3"),
    ("Y3", "M2"), ("Y4", "S4"), ("S3", "M1"), ("S4", "M3")
  ]

  /** The red player's base is X, the blue player's Y. */
  function BaseOf(color: PlayerColor): string {
    if color == Red then "X" else "Y"
  }

  /** The ids of the listed vertices, in listing order. */
  function IdsOf(data: seq<(string, VertexType)>): (ids: seq<string>)
    ensures |ids| == |data| && forall i :: 0 <= i < |data| ==> ids[i] == data[i].0
  {
    seq(|data|, i requires 0 <= i < |data| => data[i].0)
  }

  predicate DistinctIds(data: seq<(string, VertexType)>) {
    forall i, j :: 0 <= i < j < |data| ==> data[i].0 != data[j].0
  }

  /** Vertex table after inserting the given vertex records, each with an empty stack. */
  function VerticesOf(data: seq<(string, VertexType)>): OrderedMap<Vertex> {
    if data == [] then Empty()
    else
      var n := |data|;
      VerticesOf(data[..n - 1]).Set(data[n - 1].0, Vertex(data[n - 1].0, data[n - 1].1, []))
  }

  /** The table is well formed, holds exactly the listed ids, each with an empty stack, in listing order. */
  lemma {:induction false} VerticesOfShape(data: seq<(string, VertexType)>)
    ensures VerticesOf(data).Wf()
    ensures forall id :: id in VerticesOf(data).m <==> id in IdsOf(data)
    ensures forall id :: id in VerticesOf(data).m ==> VerticesOf(data).m[id].soldiers == [] && VerticesOf(data).m[id].id == id
    ensures DistinctIds(data) ==> VerticesOf(data).keys == IdsOf(data)
  {
    if data != [] {
      var n := |data|;
      VerticesOfShape(data[..n - 1]);
      assert IdsOf(data) == IdsOf(data[..n - 1]) + [data[n - 1].0];
    }
  }

  /** Adjacency table after giving every listed vertex an empty neighbour list. */
  function EmptyListsOf(data: seq<(string, VertexType)>): map<string, seq<string>> {
    if data == [] then map[]
    else
      var n := |data|;
      EmptyListsOf(data[..n - 1])[data[n - 1].0 := []]
  }

  /** Exactly the listed ids get a list, and every list is empty. */
  lemma {:induction false} EmptyListsOfShape(data: seq<(string, VertexType)>)
    ensures forall id :: id in EmptyListsOf(data) <==> id in IdsOf(data)
    ensures forall id :: id in EmptyListsOf(data) ==> EmptyListsOf(data)[id] == []
  {
    if data != [] {
      var n := |data|;
      EmptyListsOfShape(data[..n - 1]);
      assert IdsOf(data) == IdsOf(data[..n - 1]) + [data[n - 1].0];
    }
  }

  /** One edge: each endpoint present in the table gets the other appended to its list. */
  function Link(adj: map<string, seq<string>>, e: (string, string)): map<string, seq<string>> {
    var adj1 := if e.0 in adj then adj[e.0 := adj[e.0] + [e.1]] else adj;
    if e.1 in adj1 then adj1[e.1 := adj1[e.1] + [e.0]] else adj1
  }

  /** The adjacency table after linking the edges in order. */
  function AddEdges(adj: map<string, seq<string>>, es: seq<(string, string)>): (r: map<string, seq<string>>)
    ensures r.Keys == adj.Keys
  {
    if es == [] then adj else Link(AddEdges(adj, es[..|es| - 1]), es[|es| - 1])
  }

  function InitialVertices(): OrderedMap<Vertex> {
    VerticesOf(VertexData)
  }

  function Adjacency(): map<string, seq<string>> {
    AddEdges(EmptyListsOf(VertexData), Edges)
  }

  /** Some edge joins `a` and `b`, in one direction or the other. */
  predicate Joined(es: seq<(string, string)>, a: string, b: string) {
    (a, b) in es || (b, a) in es
  }

  /** Linking edges appends to the list of a present vertex exactly the other ends of its edges. */
  lemma {:induction false} AddEdgesNeighbours(adj: map<string, seq<string>>, es: seq<(string, string)>, a: string, b: string)
    requires a in adj
    ensures b in AddEdges(adj, es)[a] <==> b in adj[a] || Joined(es, a, b)
  {
    if es != [] {
      var n := |es|;
      var pre := es[..n - 1];
      AddEdgesNeighbours(adj, pre, a, b);
      assert es == pre + [es[n - 1]];
      assert Joined(es, a, b) <==> Joined(pre, a, b) || es[n - 1] == (a, b) || es[n - 1] == (b, a);
    }
  }

  /** The vertex ids in listing order. */
  const VertexIds: seq<string> := ["X", "Y", "S1", "S2", "S3", "S4", "X1", "X2", "X3", "X4", "Y1", "Y2", "Y3", "Y4", "M1", "M2", "M3"]

  lemma VertexListing()
    ensures |VertexData| == 17 && |Edges| == 24
    ensures DistinctIds(VertexData)
    ensures IdsOf(VertexData) == VertexIds
    ensures SimpleEdges(Edges)
  {
    assert IdsOf(VertexData) == VertexIds;
    IdsDistinct();
    EdgesSimple();
  }

  /** No edge is a loop, and no edge is listed twice in either direction. */
  lemma EdgesSimple()
    ensures SimpleEdges(Edges)
  {
    EdgesWithinBoard();
    EdgesNotRepeated();
    EdgesNotReversed();
  }

  lemma EdgesNotRepeated()
    ensures forall i, j :: 0 <= i < j < |Edges| ==> Edges[i] != Edges[j]
  {
  }

  lemma EdgesNotReversed()
    ensures forall i, j :: 0 <= i < j < |Edges| ==> Edges[i] != (Edges[j].1, Edges[j].0)
  {
  }

  lemma IdsDistinct()
    ensures forall i, j :: 0 <= i < j < |VertexIds| ==> VertexIds[i] != VertexIds[j]
  {
  }

  /** Every edge joins two distinct listed vertices. */
  lemma EdgesWithinBoard()
    ensures forall i :: 0 <= i < |Edges| ==> Edges[i].0 != Edges[i].1
    ensures forall i :: 0 <= i < |Edges| ==> Edges[i].0 in VertexIds && Edges[i].1 in VertexIds
  {
  }

  /** The map's edges join listed vertices. */
  lemma EdgesListed()
    ensures forall e :: e in Edges ==> e.0 in IdsOf(VertexData) && e.1 in IdsOf(VertexData)
  {
    VertexListing();
    EdgesWithinBoard();
    forall e | e in Edges ensures e.0 in VertexIds && e.1 in VertexIds {
      var i :| 0 <= i < |Edges| && Edges[i] == e;
    }
  }

  /** The 17 vertices start with empty stacks and each has a neighbour list. */
  lemma InitialBoard()
    ensures InitialVertices().keys == VertexIds && |VertexIds| == 17
    ensures forall id :: id in InitialVertices().m ==> InitialVertices().m[id].soldiers == []
    ensures InitialVertices().Wf()
    ensures forall id :: id in Adjacency() <==> id in InitialVertices().m
  {
    VertexListing();
    VerticesOfShape(VertexData);
    EmptyListsOfShape(VertexData);
  }

  /** No vertex is listed twice among the neighbours of another. */
  lemma NeighboursDistinct(a: string)
    requires a in Adjacency()
    ensures Distinct(Adjacency()[a])
  {
    EdgesSimple();
    EmptyListsOfShape(VertexData);
    AddEdgesNoRepeat(EmptyListsOf(VertexData), Edges, a);
  }

  /** `b` is listed as a neighbour of `a` exactly when an edge of the map joins them, and then
      `b` is a vertex of the map too. */
  lemma NeighboursAreEdges(a: string, b: string)
    requires a in Adjacency()
    ensures b in Adjacency()[a] <==> Joined(Edges, a, b)
    ensures Joined(Edges, a, b) ==> b in Adjacency()
  {
    EdgesListed();
    NeighboursOf(VertexData, Edges, a, b);
  }

  /** Edges without loops, none listed twice in either direction. */
  predicate SimpleEdges(es: seq<(string, string)>) {
    && (forall i :: 0 <= i < |es| ==> es[i].0 != es[i].1)
    && (forall i, j :: 0 <= i < j < |es| ==> es[i] != es[j] && es[i] != (es[j].1, es[j].0))
  }

  /** Linking simple edges that are new to `a` never lists a neighbour of `a` twice. */
  lemma {:induction false} AddEdgesNoRepeat(adj: map<string, seq<string>>, es: seq<(string, string)>, a: string)
    requires a in adj && Distinct(adj[a]) && SimpleEdges(es)
    requires forall b :: b in adj[a] ==> !Joined(es, a, b)
    ensures Distinct(AddEdges(adj, es)[a])
  {
    if es != [] {
      var n := |es|;
      var pre := es[..n - 1];
      var e := es[n - 1];
      assert es == pre + [e];
      assert forall b :: Joined(pre, a, b) ==> Joined(es, a, b);
      AddEdgesNoRepeat(adj, pre, a);
      LastEdgeIsNew(es);
      var list := AddEdges(adj, pre)[a];
      if e.0 == a {
        AddEdgesNeighbours(adj, pre, a, e.1);
        DistinctAppend(list, e.1);
        assert AddEdges(adj, es)[a] == list + [e.1];
      } else if e.1 == a {
        AddEdgesNeighbours(adj, pre, a, e.0);
        DistinctAppend(list, e.0);
        assert AddEdges(adj, es)[a] == list + [e.0];
      } else {
        assert AddEdges(adj, es)[a] == list;
      }
    }
  }

  lemma DistinctAppend(list: seq<string>, x: string)
    requires Distinct(list) && x !in list
    ensures Distinct(list + [x])
  {
  }

  /** In a simple edge list the last edge joins two vertices no earlier edge joins. */
  lemma LastEdgeIsNew(es: seq<(string, string)>)
    requires es != [] && SimpleEdges(es)
    ensures !Joined(es[..|es| - 1], es[|es| - 1].0, es[|es| - 1].1)
  {
  }

  lemma NeighboursOf(data: seq<(string, VertexType)>, es: seq<(string, string)>, a: string, b: string)
    requires forall e :: e in es ==> e.0 in IdsOf(data) && e.1 in IdsOf(data)
    requires a in EmptyListsOf(data)
    ensures b in AddEdges(EmptyListsOf(data), es)[a] <==> Joined(es, a, b)
    ensures Joined(es, a, b) ==> b in EmptyListsOf(data)
  {
    EmptyListsOfShape(data);
    AddEdgesNeighbours(EmptyListsOf(data), es, a, b);
  }

  /** Every edge is inserted in both directions, so adjacency is symmetric. */
  lemma AdjacencySymmetric(a: string, b: string)
    requires a in Adjacency() && b in Adjacency()[a]
    ensures b in Adjacency() && a in Adjacency()[b]
  {
    NeighboursAreEdges(a, b);
    NeighboursAreEdges(b, a);
  }
}
