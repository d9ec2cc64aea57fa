/** Depth-first walks that follow every edge anew: each visit goes through the children in an order of its
    own, and the depth recorded for a vertex is that of its last visit. */
module DepthFirst {
  import opened Graphs

  type DepthMap = map<Vertex, nat>

  /** One visit with the visits of the children in the order they are made. */
  datatype Tree = Visit(v: Vertex, kids: seq<Tree>)

  /** Each vertex of vs heads one of the visits, and only one. */
  ghost predicate HeadsOnce(kids: seq<Tree>, vs: set<Vertex>) {
    && (forall i :: 0 <= i < |kids| ==> kids[i].v in vs)
    && (forall x :: x in vs ==> exists i :: 0 <= i < |kids| && kids[i].v == x)
    && (forall i, j :: 0 <= i < j < |kids| ==> kids[i].v != kids[j].v)
  }

  /** t is a walk over es: every visit goes on to all children. */
  ghost predicate Explores(es: Edges, t: Tree) {
    HeadsOnce(t.kids, Downs(es, t.v)) && forall k :: k in t.kids ==> Explores(es, k)
  }

  /** The depth map after the visit t at depth n. */
  ghost function Record(t: Tree, n: nat, d: DepthMap): DepthMap
    decreases t, 0
  {
    RecordAll(t.kids, n + 1, d[t.v := n])
  }

  ghost function RecordAll(kids: seq<Tree>, n: nat, d: DepthMap): DepthMap
    decreases kids, |kids|
  {
    if kids == [] then d
    else Record(kids[|kids| - 1], n, RecordAll(kids[..|kids| - 1], n, d))
  }

  /** d is what some walk from v leaves, which starts at depth 1. */
  ghost predicate LastVisits(es: Edges, v: Vertex, d: DepthMap) {
    exists t :: Explores(es, t) && t.v == v && d == Record(t, 1, map[])
  }

  ghost predicate AllExplore(es: Edges, kids: seq<Tree>) {
    forall i :: 0 <= i < |kids| ==> Explores(es, kids[i])
  }

  ghost predicate SomeReaches(es: Edges, kids: seq<Tree>, y: Vertex) {
    exists i :: 0 <= i < |kids| && Reaches(es, kids[i].v, y)
  }

  // ----- what a walk records -----

  /** What a vertex reaches without being it, one of its children reaches. */
  lemma ReachesByKid(es: Edges, t: Tree, y: Vertex)
    requires Explores(es, t)
    ensures AllExplore(es, t.kids)
    ensures Reaches(es, t.v, y) <==> y == t.v || SomeReaches(es, t.kids, y)
  {
    if Reaches(es, t.v, y) && y != t.v {
      var p :| Walk(es, t.v, p, y);
      DepsDowns(es, t.v, p[0]);
      assert Walk(es, p[0], p[1..], y);
      var i :| 0 <= i < |t.kids| && t.kids[i].v == p[0];
    }
    if SomeReaches(es, t.kids, y) {
      var i :| 0 <= i < |t.kids| && Reaches(es, t.kids[i].v, y);
      DepsDowns(es, t.v, t.kids[i].v);
      EdgeReaches(es, t.v, t.kids[i].v, y);
    }
    ReachesSelf(es, t.v);
  }

  /** A walk changes the depths of the vertices below it only. */
  lemma {:induction false} RecordElsewhere(es: Edges, t: Tree, n: nat, d: DepthMap, y: Vertex)
    requires Explores(es, t) && !Reaches(es, t.v, y)
    ensures y in Record(t, n, d) <==> y in d
    ensures y in d ==> Record(t, n, d)[y] == d[y]
    decreases t, 0
  {
    ReachesByKid(es, t, y);
    RecordAllElsewhere(es, t.kids, n + 1, d[t.v := n], y);
  }

  lemma {:induction false} RecordAllElsewhere(es: Edges, kids: seq<Tree>, n: nat, d: DepthMap, y: Vertex)
    requires AllExplore(es, kids) && !SomeReaches(es, kids, y)
    ensures y in RecordAll(kids, n, d) <==> y in d
    ensures y in d ==> RecordAll(kids, n, d)[y] == d[y]
    decreases kids, |kids|
  {
    if kids != [] {
      var m := |kids| - 1;
      RecordAllElsewhere(es, kids[..m], n, d, y);
      RecordElsewhere(es, kids[m], n, RecordAll(kids[..m], n, d), y);
    }
  }

  /** The last of the visits below which y lies. */
  lemma {:induction false} LastKid(es: Edges, kids: seq<Tree>, y: Vertex) returns (i: nat)
    requires SomeReaches(es, kids, y)
    ensures i < |kids| && Reaches(es, kids[i].v, y)
    ensures forall j :: i < j < |kids| ==> !Reaches(es, kids[j].v, y)
    decreases |kids|
  {
    var m := |kids| - 1;
    if Reaches(es, kids[m].v, y) {
      i := m;
    } else {
      var j :| 0 <= j < |kids| && Reaches(es, kids[j].v, y);
      assert kids[..m][j] == kids[j];
      i := LastKid(es, kids[..m], y);
    }
  }

  /** Its depth is what that visit records. */
  lemma {:induction false} RecordByKid(es: Edges, kids: seq<Tree>, n: nat, d: DepthMap, y: Vertex, i: nat)
    requires AllExplore(es, kids) && i < |kids| && Reaches(es, kids[i].v, y)
    requires forall j :: i < j < |kids| ==> !Reaches(es, kids[j].v, y)
    ensures y in Record(kids[i], n, map[]) && y in RecordAll(kids, n, d)
    ensures RecordAll(kids, n, d)[y] == Record(kids[i], n, map[])[y]
    decreases kids, |kids|
  {
    var m := |kids| - 1;
    var e := RecordAll(kids[..m], n, d);
    if i == m {
      RecordOwn(es, kids[m], n, e, y);
    } else {
      assert kids[..m][i] == kids[i];
      RecordByKid(es, kids[..m], n, d, y, i);
      RecordElsewhere(es, kids[m], n, e, y);
    }
  }

  /** Below the walk the depths are its own, whatever was recorded before: each is the depth of the walk
      plus the length of a walk over the graph. */
  lemma {:induction false} RecordOwn(es: Edges, t: Tree, n: nat, d: DepthMap, y: Vertex)
    requires Explores(es, t) && Reaches(es, t.v, y)
    ensures y in Record(t, n, d) && y in Record(t, n, map[]) && Record(t, n, d)[y] == Record(t, n, map[])[y]
    ensures exists p :: Walk(es, t.v, p, y) && Record(t, n, d)[y] == n + |p|
    decreases t, 0
  {
    hide Record, RecordAll, Explores;
    ReachesByKid(es, t, y);
    if SomeReaches(es, t.kids, y) {
      hide SomeReaches;
      var i := LastKid(es, t.kids, y);
      var k := t.kids[i];
      RecordOwn(es, k, n + 1, map[], y);
      RecordByKidOf(es, t, n, d, y, i);
      RecordByKidOf(es, t, n, map[], y, i);
      var p :| Walk(es, k.v, p, y) && Record(k, n + 1, map[])[y] == n + 1 + |p|;
      KidEdge(es, t, i);
      assert ([k.v] + p)[1..] == p;
      assert Walk(es, t.v, [k.v] + p, y);
    } else {
      RecordHere(es, t, n, d);
      RecordHere(es, t, n, map[]);
      assert Walk(es, t.v, [], y);
    }
  }

  lemma KidEdge(es: Edges, t: Tree, i: nat)
    requires Explores(es, t) && i < |t.kids|
    ensures Edge(t.v, t.kids[i].v) in es
  {
    DepsDowns(es, t.v, t.kids[i].v);
  }

  /** A vertex that does not come up again keeps the depth of the walk. */
  lemma RecordHere(es: Edges, t: Tree, n: nat, d: DepthMap)
    requires Explores(es, t) && !SomeReaches(es, t.kids, t.v)
    ensures t.v in Record(t, n, d) && Record(t, n, d)[t.v] == n
  {
    RecordAllElsewhere(es, t.kids, n + 1, d[t.v := n], t.v);
  }

  lemma {:induction false} RecordByKidOf(es: Edges, t: Tree, n: nat, d: DepthMap, y: Vertex, i: nat)
    requires Explores(es, t) && i < |t.kids| && Reaches(es, t.kids[i].v, y)
    requires forall j :: i < j < |t.kids| ==> !Reaches(es, t.kids[j].v, y)
    ensures y in Record(t.kids[i], n + 1, map[]) && y in Record(t, n, d)
    ensures Record(t, n, d)[y] == Record(t.kids[i], n + 1, map[])[y]
    decreases t.kids, |t.kids| + 1
  {
    ReachesByKid(es, t, y);
    RecordByKid(es, t.kids, n + 1, d[t.v := n], y, i);
  }

  /** A walk records exactly what its start reaches. */
  lemma RecordsReach(es: Edges, t: Tree, n: nat, y: Vertex)
    requires Explores(es, t)
    ensures y in Record(t, n, map[]) <==> Reaches(es, t.v, y)
  {
    if Reaches(es, t.v, y) { RecordOwn(es, t, n, map[], y); } else { RecordElsewhere(es, t, n, map[], y); }
  }

  // ----- where two depths can differ -----

  /** From x distinct children lead to p and to q, to p by the shorter walk, and not both children lead
      to both. */
  ghost predicate Forked(es: Edges, x: Vertex, s: Vertex, t: Vertex, p: Vertex, q: Vertex) {
    && Edge(x, s) in es && Edge(x, t) in es && s != t
    && (exists a, b :: Walk(es, s, a, p) && Walk(es, t, b, q) && |a| < |b|)
    && !(Reaches(es, s, q) && Reaches(es, t, p))
  }

  ghost predicate ForkedBelow(es: Edges, v: Vertex, p: Vertex, q: Vertex) {
    exists x, s, t :: Reaches(es, v, x) && Forked(es, x, s, t, p, q)
  }

  lemma ForkedAbove(es: Edges, v: Vertex, k: Vertex, p: Vertex, q: Vertex)
    requires Edge(v, k) in es && ForkedBelow(es, k, p, q)
    ensures ForkedBelow(es, v, p, q)
  {
    var x, s, t :| Reaches(es, k, x) && Forked(es, x, s, t, p, q);
    EdgeReaches(es, v, k, x);
  }

  /** If one walk records p less deep than q, then p leads to q or the walk came to them through a fork. */
  lemma {:induction false} ForkBehind(es: Edges, t: Tree, n: nat, p: Vertex, q: Vertex)
    requires Acyclic(es) && Explores(es, t) && Reaches(es, t.v, p) && Reaches(es, t.v, q)
    requires p in Record(t, n, map[]) && q in Record(t, n, map[]) && Record(t, n, map[])[p] < Record(t, n, map[])[q]
    ensures Reaches(es, p, q) || ForkedBelow(es, t.v, p, q)
    decreases t
  {
    hide Acyclic, Record, RecordAll, Explores, SomeReaches, Walk;
    if p != t.v {
      ReachesByKid(es, t, p);
      ReachesByKid(es, t, q);
      RecordOwn(es, t, n, map[], p);
      if q == t.v { StartIsShallow(es, t, n, map[]); }
      assert SomeReaches(es, t.kids, q);
      var i := LastKid(es, t.kids, p);
      var j := LastKid(es, t.kids, q);
      RecordByKidOf(es, t, n, map[], p, i);
      RecordByKidOf(es, t, n, map[], q, j);
      KidEdge(es, t, i);
      if i == j {
        ForkBehind(es, t.kids[i], n + 1, p, q);
        if ForkedBelow(es, t.kids[i].v, p, q) { ForkedAbove(es, t.v, t.kids[i].v, p, q); }
      } else {
        RecordOwn(es, t.kids[i], n + 1, map[], p);
        RecordOwn(es, t.kids[j], n + 1, map[], q);
        KidEdge(es, t, j);
        assert Forked(es, t.v, t.kids[i].v, t.kids[j].v, p, q);
        ReachesSelf(es, t.v);
      }
    }
  }

  lemma StartIsShallow(es: Edges, t: Tree, n: nat, d: DepthMap)
    requires Acyclic(es) && Explores(es, t)
    ensures t.v in Record(t, n, d) && Record(t, n, d)[t.v] == n
  {
    ReachesSelf(es, t.v);
    RecordOwn(es, t, n, d, t.v);
    var p :| Walk(es, t.v, p, t.v) && Record(t, n, d)[t.v] == n + |p|;
    assert p == [];
  }

  // ----- walks with chosen last visits -----

  lemma {:induction false} SomeTree(es: Edges, v: Vertex) returns (t: Tree)
    requires Acyclic(es)
    ensures Explores(es, t) && t.v == v
    decreases Reach(es, v), 1, 0
  {
    var kids := SomeTrees(es, v, Downs(es, v));
    t := Visit(v, kids);
  }

  lemma {:induction false} SomeTrees(es: Edges, v: Vertex, vs: set<Vertex>) returns (kids: seq<Tree>)
    requires Acyclic(es) && vs <= Downs(es, v)
    ensures AllExplore(es, kids) && HeadsOnce(kids, vs)
    decreases Reach(es, v), 0, |vs|
  {
    if x :| x in vs {
      var rest := SomeTrees(es, v, vs - {x});
      DepsDowns(es, v, x);
      ReachShrinks(es, v, x);
      var k := SomeTree(es, x);
      kids := rest + [k];
      HeadsOneMore(rest, vs - {x}, k);
      assert vs - {x} + {x} == vs;
    } else {
      kids := [];
    }
  }

  lemma HeadsOneMore(kids: seq<Tree>, vs: set<Vertex>, k: Tree)
    requires HeadsOnce(kids, vs) && k.v !in vs
    ensures HeadsOnce(kids + [k], vs + {k.v})
  {
    var more := kids + [k];
    forall x | x in vs + {k.v}
      ensures exists i :: 0 <= i < |more| && more[i].v == x
    {
      if x == k.v {
        assert more[|kids|].v == x;
      } else {
        var i :| 0 <= i < |kids| && kids[i].v == x;
        assert more[i].v == x;
      }
    }
  }

  lemma RecordMore(kids: seq<Tree>, k: Tree, n: nat, d: DepthMap)
    ensures RecordAll(kids + [k], n, d) == Record(k, n, RecordAll(kids, n, d))
  {
    assert (kids + [k])[..|kids|] == kids;
  }

  lemma OneMoreExplores(es: Edges, kids: seq<Tree>, k: Tree)
    requires AllExplore(es, kids) && Explores(es, k)
    ensures AllExplore(es, kids + [k])
  {}

  ghost predicate Lands(t: Tree, n: nat, d: DepthMap, y: Vertex, len: nat) {
    y in Record(t, n, d) && Record(t, n, d)[y] == n + len
  }

  /** Wherever the walk t begins, its last visit of y is len deeper. */
  ghost predicate Ends(t: Tree, y: Vertex, len: nat) {
    forall n: nat, d :: Lands(t, n, d, y, len)
  }

  /** The visit that is made last decides the depths of what it reaches. */
  lemma LastDecides(es: Edges, v: Vertex, kids: seq<Tree>, k: Tree, y: Vertex, len: nat)
    requires Explores(es, Visit(v, kids + [k])) && Reaches(es, k.v, y) && Ends(k, y, len)
    ensures Ends(Visit(v, kids + [k]), y, len + 1)
  {
    var t := Visit(v, kids + [k]);
    var more := len + 1;
    assert t.kids[|kids|] == k;
    forall n: nat, d
      ensures Lands(t, n, d, y, more)
    {
      RecordByKidOf(es, t, n, d, y, |kids|);
      assert Lands(k, n + 1, map[], y, len);
    }
  }

  /** And the one before it, of what the last does not reach. */
  lemma SecondDecides(es: Edges, v: Vertex, kids: seq<Tree>, j: Tree, k: Tree, y: Vertex, len: nat)
    requires Explores(es, Visit(v, kids + [j] + [k])) && Reaches(es, j.v, y) && !Reaches(es, k.v, y) && Ends(j, y, len)
    ensures Ends(Visit(v, kids + [j] + [k]), y, len + 1)
  {
    var t := Visit(v, kids + [j] + [k]);
    var more := len + 1;
    assert t.kids[|kids|] == j && t.kids[|kids| + 1] == k;
    forall n: nat, d
      ensures Lands(t, n, d, y, more)
    {
      RecordByKidOf(es, t, n, d, y, |kids|);
      assert Lands(j, n + 1, map[], y, len);
    }
  }

  /** Some walk from v makes the walk a to p its last visit of p. */
  lemma {:induction false} LastTree(es: Edges, v: Vertex, a: seq<Vertex>, p: Vertex) returns (t: Tree)
    requires Acyclic(es) && Walk(es, v, a, p)
    ensures Explores(es, t) && t.v == v && Ends(t, p, |a|)
    decreases |a|
  {
    if a == [] {
      t := SomeTree(es, v);
      forall n: nat, d
        ensures Lands(t, n, d, p, 0)
      {
        StartIsShallow(es, t, n, d);
      }
    } else {
      var k := LastTree(es, a[0], a[1..], p);
      t := PutLast(es, v, k, p, |a| - 1, p, |a| - 1);
    }
  }

  /** A walk from v that makes the visit k last. */
  lemma PutLast(es: Edges, v: Vertex, k: Tree, p: Vertex, l: nat, q: Vertex, m: nat) returns (t: Tree)
    requires Acyclic(es) && Explores(es, k) && Edge(v, k.v) in es
    requires Reaches(es, k.v, p) && Ends(k, p, l) && Reaches(es, k.v, q) && Ends(k, q, m)
    ensures Explores(es, t) && t.v == v && Ends(t, p, l + 1) && Ends(t, q, m + 1)
  {
    DepsDowns(es, v, k.v);
    var others := Downs(es, v) - {k.v};
    var kids := SomeTrees(es, v, others);
    t := Visit(v, kids + [k]);
    HeadsOneMore(kids, others, k);
    assert others + {k.v} == Downs(es, v);
    OneMoreExplores(es, kids, k);
    LastDecides(es, v, kids, k, p, l);
    LastDecides(es, v, kids, k, q, m);
  }

  /** A walk from v can keep the visit tx, made at the end of the walk r, for last. */
  lemma {:induction false} LiftTree(es: Edges, v: Vertex, r: seq<Vertex>, tx: Tree, p: Vertex, l: nat, q: Vertex,
                                    m: nat)
    returns (t: Tree)
    requires Acyclic(es) && Explores(es, tx) && Walk(es, v, r, tx.v)
    requires Reaches(es, tx.v, p) && Ends(tx, p, l) && Reaches(es, tx.v, q) && Ends(tx, q, m)
    ensures Explores(es, t) && t.v == v && Ends(t, p, l + |r|) && Ends(t, q, m + |r|)
    decreases |r|
  {
    if r == [] {
      t := tx;
    } else {
      var k := LiftTree(es, r[0], r[1..], tx, p, l, q, m);
      assert Reaches(es, r[0], tx.v);
      ReachesTrans(es, r[0], tx.v, p);
      ReachesTrans(es, r[0], tx.v, q);
      t := PutLast(es, v, k, p, l + |r| - 1, q, m + |r| - 1);
    }
  }

  /** A walk from x that goes to the children s and t last, first to s. */
  lemma ForkTree(es: Edges, x: Vertex, s: Vertex, a: seq<Vertex>, p: Vertex, t: Vertex, b: seq<Vertex>, q: Vertex)
    returns (tree: Tree)
    requires Acyclic(es) && Edge(x, s) in es && Edge(x, t) in es && s != t
    requires Walk(es, s, a, p) && Walk(es, t, b, q) && !Reaches(es, t, p)
    ensures Explores(es, tree) && tree.v == x && Ends(tree, p, |a| + 1) && Ends(tree, q, |b| + 1)
  {
    DepsDowns(es, x, s);
    DepsDowns(es, x, t);
    var others := Downs(es, x) - {s} - {t};
    var kids := SomeTrees(es, x, others);
    var j := LastTree(es, s, a, p);
    var k := LastTree(es, t, b, q);
    HeadsOneMore(kids, others, j);
    HeadsOneMore(kids + [j], others + {s}, k);
    OneMoreExplores(es, kids, j);
    OneMoreExplores(es, kids + [j], k);
    assert others + {s} + {t} == Downs(es, x);
    tree := Visit(x, kids + [j] + [k]);
    LastDecides(es, x, kids + [j], k, q, |b|);
    SecondDecides(es, x, kids, j, k, p, |a|);
  }

  /** Wherever there is a fork, some walk records p less deep than q. */
  lemma ForkRecords(es: Edges, v: Vertex, p: Vertex, q: Vertex) returns (d: DepthMap)
    requires Acyclic(es) && ForkedBelow(es, v, p, q)
    ensures LastVisits(es, v, d) && p in d && q in d && d[p] < d[q]
  {
    hide Acyclic, Ends;
    var x, s, t :| Reaches(es, v, x) && Forked(es, x, s, t, p, q);
    var a, b :| Walk(es, s, a, p) && Walk(es, t, b, q) && |a| < |b|;
    var tx: Tree;
    if !Reaches(es, t, p) {
      tx := ForkTree(es, x, s, a, p, t, b, q);
    } else {
      tx := ForkTree(es, x, t, b, q, s, a, p);
    }
    var r :| Walk(es, v, r, x);
    EdgeReaches(es, x, s, p);
    EdgeReaches(es, x, t, q);
    var tree := LiftTree(es, v, r, tx, p, |a| + 1, q, |b| + 1);
    d := Record(tree, 1, map[]);
    AtStart(tree, p, |a| + 1 + |r|);
    AtStart(tree, q, |b| + 1 + |r|);
  }

  lemma AtStart(t: Tree, y: Vertex, len: nat)
    requires Ends(t, y, len)
    ensures Lands(t, 1, map[], y, len)
  {}

  lemma SomeVisits(es: Edges, v: Vertex) returns (d: DepthMap)
    requires Acyclic(es)
    ensures LastVisits(es, v, d)
  {
    var t := SomeTree(es, v);
    d := Record(t, 1, map[]);
  }

  // ----- when a walk ends at all -----

  ghost predicate CycleBelow(es: Edges, v: Vertex) {
    exists x, p :: p != [] && Reaches(es, v, x) && Walk(es, x, p, x)
  }

  ghost predicate WalksWithin(es: Edges, v: Vertex, n: nat) {
    forall p, x :: Walk(es, v, p, x) ==> |p| <= n
  }

  /** A visit with its depth of nested visits below n. */
  lemma {:induction false} TreeBounds(es: Edges, t: Tree) returns (n: nat)
    requires Explores(es, t)
    ensures WalksWithin(es, t.v, n)
    decreases t, 0
  {
    var m := TreesBound(es, t.kids);
    n := m + 1;
    forall p, x | Walk(es, t.v, p, x)
      ensures |p| <= n
    {
      if p != [] {
        DepsDowns(es, t.v, p[0]);
        var i :| 0 <= i < |t.kids| && t.kids[i].v == p[0];
        assert Walk(es, t.kids[i].v, p[1..], x);
      }
    }
  }

  lemma {:induction false} TreesBound(es: Edges, kids: seq<Tree>) returns (n: nat)
    requires AllExplore(es, kids)
    ensures forall i :: 0 <= i < |kids| ==> WalksWithin(es, kids[i].v, n)
    decreases kids, |kids|
  {
    n := 0;
    if kids != [] {
      var m := |kids| - 1;
      var rest := TreesBound(es, kids[..m]);
      var last := TreeBounds(es, kids[m]);
      n := if rest < last then last else rest;
      forall i | 0 <= i < |kids|
        ensures WalksWithin(es, kids[i].v, n)
      {
        if i < m { assert kids[..m][i] == kids[i]; }
      }
    }
  }

  /** Going around a cycle once more gives a longer walk. */
  lemma {:induction false} LongerWalk(es: Edges, v: Vertex, a: seq<Vertex>, x: Vertex, p: seq<Vertex>, n: nat)
    returns (q: seq<Vertex>)
    requires Walk(es, v, a, x) && p != [] && Walk(es, x, p, x)
    ensures Walk(es, v, q, x) && |q| >= n
    decreases n
  {
    if n == 0 {
      q := a;
    } else {
      var r := LongerWalk(es, v, a, x, p, n - 1);
      WalkConcat(es, v, r, x, p, x);
      q := r + p;
    }
  }

  // ----- the part of a graph below some vertices -----

  /** No edge leads out of r. */
  ghost predicate Closed(es: Edges, r: set<Vertex>) {
    forall e :: e in es && e.from in r ==> e.to in r
  }

  ghost function Part(es: Edges, r: set<Vertex>): Edges {
    set e | e in es && e.from in r
  }

  lemma {:induction false} WalkInPart(es: Edges, r: set<Vertex>, v: Vertex, p: seq<Vertex>, x: Vertex)
    requires Closed(es, r) && v in r && Walk(es, v, p, x)
    ensures Walk(Part(es, r), v, p, x) && x in r
    decreases |p|
  {
    if p != [] {
      assert Edge(v, p[0]) in es;
      WalkInPart(es, r, p[0], p[1..], x);
    }
  }

  lemma ReachesInPart(es: Edges, r: set<Vertex>, v: Vertex, x: Vertex)
    requires Closed(es, r) && v in r && Reaches(es, v, x)
    ensures Reaches(Part(es, r), v, x) && x in r
  {
    var p :| Walk(es, v, p, x);
    WalkInPart(es, r, v, p, x);
  }

  /** A walk from r explores the part below r, and nothing else. */
  lemma {:induction false} ExploresPart(es: Edges, r: set<Vertex>, t: Tree)
    requires Closed(es, r) && t.v in r
    ensures Explores(es, t) <==> Explores(Part(es, r), t)
    decreases t
  {
    forall w
      ensures w in Downs(Part(es, r), t.v) <==> w in Downs(es, t.v)
    {
      DepsDowns(Part(es, r), t.v, w);
      DepsDowns(es, t.v, w);
    }
    assert Downs(Part(es, r), t.v) == Downs(es, t.v);
    if HeadsOnce(t.kids, Downs(es, t.v)) {
      forall k | k in t.kids
        ensures Explores(es, k) <==> Explores(Part(es, r), k)
      {
        DepsDowns(es, t.v, k.v);
        assert Edge(t.v, k.v) in es;
        ExploresPart(es, r, k);
      }
    }
  }

  lemma LastVisitsPart(es: Edges, r: set<Vertex>, v: Vertex, d: DepthMap)
    requires Closed(es, r) && v in r && LastVisits(es, v, d)
    ensures LastVisits(Part(es, r), v, d) && d.Keys <= r
  {
    var t :| Explores(es, t) && t.v == v && d == Record(t, 1, map[]);
    ExploresPart(es, r, t);
    forall x | x in d
      ensures x in r
    {
      RecordsReach(es, t, 1, x);
      ReachesInPart(es, r, v, x);
    }
  }

  /** What the vertices of vs lead to, themselves included. */
  ghost function Under(vs: set<Vertex>, es: Edges): set<Vertex> {
    vs + set x | x in Nodes(es) && exists v :: v in vs && Reaches(es, v, x)
  }

  /** The edges that a walk from a vertex of vs can follow. */
  ghost function Below(vs: set<Vertex>, es: Edges): Edges {
    Part(es, Under(vs, es))
  }

  lemma UnderIs(vs: set<Vertex>, es: Edges, x: Vertex)
    ensures x in Under(vs, es) <==> exists v :: v in vs && Reaches(es, v, x)
  {
    if x in vs { ReachesSelf(es, x); }
    if v :| v in vs && Reaches(es, v, x) {
      ReachMember(es, v, x);
    }
  }

  lemma UnderClosed(vs: set<Vertex>, es: Edges)
    ensures Closed(es, Under(vs, es)) && vs <= Under(vs, es)
  {
    forall e | e in es && e.from in Under(vs, es)
      ensures e.to in Under(vs, es)
    {
      UnderIs(vs, es, e.from);
      UnderIs(vs, es, e.to);
      var v :| v in vs && Reaches(es, v, e.from);
      assert Edge(e.from, e.to) == e;
      ReachesEdge(es, v, e.from, e.to);
    }
  }

  /** No walk from a vertex of vs comes to a cycle. */
  ghost predicate NoCycleBelow(vs: set<Vertex>, es: Edges) {
    forall v :: v in vs ==> !CycleBelow(es, v)
  }

  lemma CycleIsBelow(vs: set<Vertex>, es: Edges, x: Vertex, p: seq<Vertex>)
    requires p != [] && Walk(Below(vs, es), x, p, x)
    ensures exists v :: v in vs && CycleBelow(es, v)
  {
    WalkMonotone(Below(vs, es), es, x, p, x);
    UnderIs(vs, es, x);
    var v :| v in vs && Reaches(es, v, x);
    assert CycleBelow(es, v);
  }

  lemma AcyclicBelow(vs: set<Vertex>, es: Edges)
    requires NoCycleBelow(vs, es)
    ensures Acyclic(Below(vs, es))
  {
    hide CycleBelow;
    forall x, p | Walk(Below(vs, es), x, p, x)
      ensures p == []
    {
      if p != [] { CycleIsBelow(vs, es, x, p); }
    }
  }

  lemma NoCycleInAcyclic(vs: set<Vertex>, es: Edges)
    requires Acyclic(es)
    ensures NoCycleBelow(vs, es)
  {}

  lemma NoCycleInFewer(vs: set<Vertex>, es: Edges, less: Edges)
    requires NoCycleBelow(vs, es) && less <= es
    ensures NoCycleBelow(vs, less)
  {
    forall v | v in vs
      ensures !CycleBelow(less, v)
    {
      if x, p :| p != [] && Reaches(less, v, x) && Walk(less, x, p, x) {
        ReachesMonotone(less, es, v, x);
        WalkMonotone(less, es, x, p, x);
        assert CycleBelow(es, v);
      }
    }
  }

  /** Where no cycle lies below v, every step from v leaves less to reach. */
  lemma StepShrinks(es: Edges, v: Vertex, w: Vertex)
    requires !CycleBelow(es, v) && Edge(v, w) in es
    ensures !CycleBelow(es, w) && Reach(es, w) < Reach(es, v)
  {
    forall x | Reaches(es, w, x)
      ensures Reaches(es, v, x)
    {
      EdgeReaches(es, v, w, x);
    }
    forall x
      ensures x in Reach(es, w) ==> x in Reach(es, v)
    {
      ReachMember(es, w, x);
      ReachMember(es, v, x);
    }
    ReachesSelf(es, v);
    ReachMember(es, v, v);
    ReachMember(es, w, v);
    forall p
      ensures !Walk(es, w, p, v)
    {
      assert ([w] + p)[1..] == p;
      assert Walk(es, v, [w] + p, v) <==> Walk(es, w, p, v);
    }
  }

  /** A walk from v has an end if and only if the walks over the graph from v have bounded length, and
      that is so if and only if no cycle lies below v. */
  lemma WalkEndsIff(es: Edges, v: Vertex)
    ensures (exists t :: Explores(es, t) && t.v == v) <==> !CycleBelow(es, v)
    ensures (exists n :: WalksWithin(es, v, n)) <==> !CycleBelow(es, v)
  {
    if !CycleBelow(es, v) {
      AcyclicBelow({v}, es);
      UnderClosed({v}, es);
      var t := SomeTree(Below({v}, es), v);
      ExploresPart(es, Under({v}, es), t);
    }
    if t :| Explores(es, t) && t.v == v {
      var n := TreeBounds(es, t);
    }
    if n: nat :| WalksWithin(es, v, n) {
      NoCycleWithin(es, v, n);
    }
  }

  lemma NoCycleWithin(es: Edges, v: Vertex, n: nat)
    requires WalksWithin(es, v, n)
    ensures !CycleBelow(es, v)
  {
    if x, p :| p != [] && Reaches(es, v, x) && Walk(es, x, p, x) {
      var a :| Walk(es, v, a, x);
      var q := LongerWalk(es, v, a, x, p, n + 1);
    }
  }
}
