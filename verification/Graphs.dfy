/** Finite directed graphs as edge sets: walks, reachability, acyclicity and redundancy.
    Vertices are named by strings, as in the dag package. */
module Graphs {

  type Vertex = string

  datatype Edge = Edge(from: Vertex, to: Vertex)

  type Edges = set<Edge>

  /** p lists the vertices visited after a, the last of which is b; |p| is the length of the walk. */
  ghost predicate Walk(es: Edges, a: Vertex, p: seq<Vertex>, b: Vertex)
    decreases |p|
  {
    if p == [] then a == b else Edge(a, p[0]) in es && Walk(es, p[0], p[1..], b)
  }

  ghost predicate Reaches(es: Edges, a: Vertex, b: Vertex) {
    exists p :: Walk(es, a, p, b)
  }

  ghost predicate Acyclic(es: Edges) {
    forall v, p :: Walk(es, v, p, v) ==> p == []
  }

  /** Some walk other than the edge itself leads from one end of e to the other. */
  ghost predicate Redundant(es: Edges, e: Edge) {
    exists p :: |p| >= 2 && Walk(es, e.from, p, e.to)
  }

  ghost predicate Irredundant(es: Edges) {
    forall e :: e in es ==> !Redundant(es, e)
  }

  ghost predicate Rooted(vs: set<Vertex>, es: Edges, root: Vertex) {
    forall v :: v in vs ==> Reaches(es, root, v)
  }

  /** Two graphs with the same reachability relation. */
  ghost predicate SameReach(es: Edges, fs: Edges) {
    forall a, b :: Reaches(es, a, b) <==> Reaches(fs, a, b)
  }

  function Deps(es: Edges, v: Vertex): set<Vertex> {
    set e | e in es && e.to == v :: e.from
  }

  function Downs(es: Edges, v: Vertex): set<Vertex> {
    set e | e in es && e.from == v :: e.to
  }

  ghost function Nodes(es: Edges): set<Vertex> {
    (set e | e in es :: e.from) + (set e | e in es :: e.to)
  }

  /** The vertices reachable from v, and those that reach v; v itself is in both. */
  ghost function Reach(es: Edges, v: Vertex): set<Vertex> {
    set x | x in Nodes(es) + {v} && Reaches(es, v, x)
  }

  ghost function Ancestry(es: Edges, v: Vertex): set<Vertex> {
    set x | x in Nodes(es) + {v} && Reaches(es, x, v)
  }

  lemma DepsDowns(es: Edges, a: Vertex, b: Vertex)
    ensures a in Deps(es, b) <==> Edge(a, b) in es
    ensures b in Downs(es, a) <==> Edge(a, b) in es
  {
    if Edge(a, b) in es {
      var e := Edge(a, b);
      assert e.from in Deps(es, b) && e.to in Downs(es, a);
    }
    if a in Deps(es, b) {
      var e :| e in es && e.to == b && e.from == a;
      assert e == Edge(a, b);
    }
    if b in Downs(es, a) {
      var e :| e in es && e.from == a && e.to == b;
      assert e == Edge(a, b);
    }
  }

  lemma {:induction false} WalkConcat(es: Edges, a: Vertex, p: seq<Vertex>, b: Vertex, q: seq<Vertex>, c: Vertex)
    requires Walk(es, a, p, b) && Walk(es, b, q, c)
    ensures Walk(es, a, p + q, c)
    decreases |p|
  {
    if p == [] {
      assert p + q == q;
    } else {
      WalkConcat(es, p[0], p[1..], b, q, c);
      assert (p + q)[1..] == p[1..] + q;
    }
  }

  /** A non-empty walk ends with an edge into its last vertex. */
  lemma {:induction false} WalkLast(es: Edges, a: Vertex, p: seq<Vertex>, b: Vertex) returns (y: Vertex)
    requires Walk(es, a, p, b) && p != []
    ensures Walk(es, a, p[..|p| - 1], y) && Edge(y, b) in es
    decreases |p|
  {
    if |p| == 1 {
      y := a;
    } else {
      y := WalkLast(es, p[0], p[1..], b);
      assert p[..|p| - 1][1..] == p[1..][..|p| - 2];
    }
  }

  lemma {:induction false} WalkMonotone(es: Edges, fs: Edges, a: Vertex, p: seq<Vertex>, b: Vertex)
    requires Walk(es, a, p, b) && es <= fs
    ensures Walk(fs, a, p, b)
    decreases |p|
  {
    if p != [] {
      WalkMonotone(es, fs, p[0], p[1..], b);
    }
  }

  lemma {:induction false} WalkEndIsNode(es: Edges, a: Vertex, p: seq<Vertex>, b: Vertex)
    requires Walk(es, a, p, b)
    ensures b in Nodes(es) + {a} && a in Nodes(es) + {b}
    decreases |p|
  {
    if p != [] {
      WalkEndIsNode(es, p[0], p[1..], b);
      assert Edge(a, p[0]).from in Nodes(es) && Edge(a, p[0]).to in Nodes(es);
    }
  }

  lemma ReachesSelf(es: Edges, a: Vertex)
    ensures Reaches(es, a, a)
  {
    assert Walk(es, a, [], a);
  }

  lemma ReachesTrans(es: Edges, a: Vertex, b: Vertex, c: Vertex)
    requires Reaches(es, a, b) && Reaches(es, b, c)
    ensures Reaches(es, a, c)
  {
    var p :| Walk(es, a, p, b);
    var q :| Walk(es, b, q, c);
    WalkConcat(es, a, p, b, q, c);
  }

  lemma ShortWalk(es: Edges, a: Vertex, p: seq<Vertex>, b: Vertex)
    requires Walk(es, a, p, b) && |p| <= 1
    ensures a == b || (p == [b] && Edge(a, b) in es)
  {
    if |p| == 1 {
      assert Walk(es, p[0], p[1..], b);
      assert p == [b];
    }
  }

  lemma EdgeWalk(es: Edges, a: Vertex, b: Vertex)
    requires Edge(a, b) in es
    ensures Walk(es, a, [b], b) && Reaches(es, a, b)
  {
    assert Walk(es, b, [b][1..], b);
    assert Walk(es, a, [b], b);
  }

  lemma ReachesEdge(es: Edges, a: Vertex, b: Vertex, c: Vertex)
    requires Reaches(es, a, b) && Edge(b, c) in es
    ensures Reaches(es, a, c)
  {
    EdgeWalk(es, b, c);
    ReachesTrans(es, a, b, c);
  }

  lemma EdgeReaches(es: Edges, a: Vertex, b: Vertex, c: Vertex)
    requires Edge(a, b) in es && Reaches(es, b, c)
    ensures Reaches(es, a, c)
  {
    EdgeWalk(es, a, b);
    ReachesTrans(es, a, b, c);
  }

  /** What reaches b without being b reaches one of its parents. */
  lemma ReachesParent(es: Edges, a: Vertex, b: Vertex) returns (y: Vertex)
    requires Reaches(es, a, b) && a != b
    ensures Edge(y, b) in es && Reaches(es, a, y)
  {
    var p :| Walk(es, a, p, b);
    y := WalkLast(es, a, p, b);
  }

  lemma ReachesMonotone(es: Edges, fs: Edges, a: Vertex, b: Vertex)
    requires Reaches(es, a, b) && es <= fs
    ensures Reaches(fs, a, b)
  {
    var p :| Walk(es, a, p, b);
    WalkMonotone(es, fs, a, p, b);
  }

  lemma AcyclicSubset(es: Edges, fs: Edges)
    requires Acyclic(fs) && es <= fs
    ensures Acyclic(es)
  {
    forall v, p | Walk(es, v, p, v)
      ensures p == []
    {
      WalkMonotone(es, fs, v, p, v);
    }
  }

  lemma ReachMember(es: Edges, v: Vertex, x: Vertex)
    ensures x in Reach(es, v) <==> Reaches(es, v, x)
    ensures x in Ancestry(es, v) <==> Reaches(es, x, v)
  {
    if Reaches(es, v, x) {
      var p :| Walk(es, v, p, x);
      WalkEndIsNode(es, v, p, x);
    }
    if Reaches(es, x, v) {
      var p :| Walk(es, x, p, v);
      WalkEndIsNode(es, x, p, v);
    }
  }

  /** In an acyclic graph nothing below v leads back to v. */
  lemma NoWayBack(es: Edges, v: Vertex, w: Vertex)
    requires Acyclic(es) && Edge(v, w) in es
    ensures !Reaches(es, w, v) && v != w
  {
    if Reaches(es, w, v) {
      var p :| Walk(es, w, p, v);
      assert Walk(es, v, [w] + p, v) by { assert ([w] + p)[1..] == p; }
      assert false;
    }
    if v == w {
      ReachesSelf(es, v);
      assert false;
    }
  }

  lemma AntiSymmetric(es: Edges, a: Vertex, b: Vertex)
    requires Acyclic(es) && Reaches(es, a, b) && Reaches(es, b, a)
    ensures a == b
  {
    var p :| Walk(es, a, p, b);
    var q :| Walk(es, b, q, a);
    WalkConcat(es, a, p, b, q, a);
    assert p + q == [];
    assert p == [];
  }

  /** Both sets shrink strictly along an edge, so either serves as a termination measure. */
  lemma ReachShrinks(es: Edges, v: Vertex, w: Vertex)
    requires Acyclic(es) && Edge(v, w) in es
    ensures Reach(es, w) < Reach(es, v)
    ensures Ancestry(es, v) < Ancestry(es, w)
  {
    NoWayBack(es, v, w);
    forall x
      ensures x in Reach(es, w) ==> x in Reach(es, v)
      ensures x in Ancestry(es, v) ==> x in Ancestry(es, w)
    {
      ReachMember(es, w, x);
      ReachMember(es, v, x);
      if x in Reach(es, w) { EdgeReaches(es, v, w, x); }
      if x in Ancestry(es, v) { ReachesEdge(es, x, v, w); }
    }
    ReachesSelf(es, v);
    ReachesSelf(es, w);
    ReachMember(es, v, v);
    ReachMember(es, w, v);
    ReachMember(es, w, w);
    ReachMember(es, v, w);
  }

  /** In an acyclic graph an edge is redundant exactly when its target has another
      parent that its source reaches. */
  lemma RedundantByParent(es: Edges, u: Vertex, w: Vertex)
    requires Acyclic(es) && Edge(u, w) in es
    ensures Redundant(es, Edge(u, w)) <==>
            exists y :: y != u && Edge(y, w) in es && Reaches(es, u, y)
  {
    if Redundant(es, Edge(u, w)) {
      var p :| |p| >= 2 && Walk(es, u, p, w);
      var y := WalkLast(es, u, p, w);
      if y == u {
        assert false;
      }
      assert y != u && Edge(y, w) in es && Reaches(es, u, y);
    }
    if y :| y != u && Edge(y, w) in es && Reaches(es, u, y) {
      var p :| Walk(es, u, p, y);
      EdgeWalk(es, y, w);
      WalkConcat(es, u, p, y, [w], w);
      assert |p + [w]| >= 2;
    }
  }

  lemma {:induction false} SubsetSize<T>(a: set<T>, b: set<T>)
    requires a <= b
    ensures |a| <= |b|
    ensures a != b ==> |a| < |b|
    decreases a
  {
    if x :| x in a {
      SubsetSize(a - {x}, b - {x});
      assert a != b ==> a - {x} != b - {x} by {
        if a - {x} == b - {x} { assert a == a - {x} + {x} == b - {x} + {x} == b; }
      }
    } else {
      assert a == {};
    }
  }
}
