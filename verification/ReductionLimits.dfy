/** What the reduction does not keep. Passes compare the depths of parents, and a parent that is less
    deep than another need not lead to it; so an edge that is the only way between its ends can go. */
module ReductionLimits {
  import opened DepthFirst
  import opened Graphs
  import opened Reduction

  // ----- when every run keeps reachability -----

  ghost predicate KeepsReach(vs: set<Vertex>, es: Edges) {
    forall run, out :: Run(vs, es, run, out) ==> SameReach(es, out)
  }

  /** Two parents of w to which walks from v can come at different depths, to p at the lesser: some fork
      below v leads to p by a shorter walk than to q, and its branches do not both lead to both. */
  ghost predicate Lopsided(es: Edges, v: Vertex, p: Vertex, q: Vertex, w: Vertex) {
    p != q && Edge(p, w) in es && Edge(q, w) in es && ForkedBelow(es, v, p, q)
  }

  /** Wherever parents are lopsided, the edge from the nearer one is redundant. */
  ghost predicate LevelParents(vs: set<Vertex>, es: Edges) {
    forall v, p, q, w :: v in vs && Lopsided(es, v, p, q, w) ==> Redundant(es, Edge(p, w))
  }

  /** What a pass removes has a parent on the other side of a fork, or one that its source leads to. */
  lemma RemovedIsForked(es: Edges, v: Vertex, d: DepthMap, e: Edge)
    requires Acyclic(es) && LastVisits(es, v, d) && e in es - Survivors(es, d)
    ensures Redundant(es, e) || exists q :: Lopsided(es, v, e.from, q, e.to)
  {
    var t :| Explores(es, t) && t.v == v && d == Record(t, 1, map[]);
    assert Edge(e.from, e.to) == e;
    var q :| Edge(q, e.to) in es && q in d && d[q] > d[e.from];
    RecordsReach(es, t, 1, e.from);
    RecordsReach(es, t, 1, q);
    ForkBehind(es, t, 1, e.from, q);
    if Reaches(es, e.from, q) {
      RedundantByParent(es, e.from, e.to);
    } else {
      assert Lopsided(es, v, e.from, q, e.to);
    }
  }

  lemma LevelPass(vs: set<Vertex>, es: Edges, v: Vertex, d: DepthMap)
    requires Acyclic(es) && LevelParents(vs, es) && v in vs && LastVisits(es, v, d)
    ensures SameReach(es, Survivors(es, d)) && LevelParents(vs, Survivors(es, d))
  {
    hide Lopsided, Acyclic, LastVisits;
    var fs := Survivors(es, d);
    forall e | e in es - fs
      ensures Redundant(es, e)
    {
      RemovedIsForked(es, v, d, e);
      assert Edge(e.from, e.to) == e;
    }
    PassKeepsReachIff(es, d);
    LevelBelow(vs, es, fs);
  }

  lemma ForkedMore(es: Edges, fs: Edges, v: Vertex, p: Vertex, q: Vertex)
    requires fs <= es && SameReach(es, fs) && ForkedBelow(fs, v, p, q)
    ensures ForkedBelow(es, v, p, q)
  {
    var x, s, t :| Reaches(fs, v, x) && Forked(fs, x, s, t, p, q);
    var a, b :| Walk(fs, s, a, p) && Walk(fs, t, b, q) && |a| < |b|;
    WalkMonotone(fs, es, s, a, p);
    WalkMonotone(fs, es, t, b, q);
    assert Forked(es, x, s, t, p, q);
  }

  lemma LevelBelow(vs: set<Vertex>, es: Edges, fs: Edges)
    requires Acyclic(es) && fs <= es && SameReach(es, fs) && LevelParents(vs, es)
    ensures LevelParents(vs, fs)
  {
    forall v, p, q, w | v in vs && Lopsided(fs, v, p, q, w)
      ensures Redundant(fs, Edge(p, w))
    {
      ForkedMore(es, fs, v, p, q);
      assert Lopsided(es, v, p, q, w);
      RedundantBelow(es, fs, p, w);
    }
  }

  lemma RedundantBelow(es: Edges, fs: Edges, p: Vertex, w: Vertex)
    requires Acyclic(es) && fs <= es && SameReach(es, fs) && Edge(p, w) in fs && Redundant(es, Edge(p, w))
    ensures Redundant(fs, Edge(p, w))
  {
    RedundantByParent(es, p, w);
    var y :| y != p && Edge(y, w) in es && Reaches(es, p, y);
    EdgeWalk(es, y, w);
    NoWayBack(es, y, w);
    assert Reaches(fs, p, y) && Reaches(fs, y, w);
    var a :| Walk(fs, p, a, y);
    var b :| Walk(fs, y, b, w);
    WalkConcat(fs, p, a, y, b, w);
    assert |a + b| >= 2;
  }

  lemma {:induction false} LevelRun(vs: set<Vertex>, all: set<Vertex>, es: Edges, run: seq<Stage>, out: Edges)
    requires Acyclic(es) && vs <= all && LevelParents(all, es) && Run(vs, es, run, out)
    ensures SameReach(es, out) && LevelParents(all, out) && Acyclic(out)
    decreases |run|
  {
    hide LevelParents, Acyclic, SameReach;
    if run == [] {
      SameAsItself(es);
    } else {
      var s := run[|run| - 1];
      LevelRun(vs - {s.start}, all, es, run[..|run| - 1], s.before);
      LevelPass(all, s.before, s.start, s.depth);
      SameReachTrans(es, s.before, out);
      AcyclicSubset(out, s.before);
    }
  }

  lemma SameAsItself(es: Edges)
    ensures SameReach(es, es)
  {}

  lemma SameReachTrans(es: Edges, mid: Edges, out: Edges)
    requires SameReach(es, mid) && SameReach(mid, out)
    ensures SameReach(es, out)
  {}

  // ----- runs that do not -----

  /** Any run can be continued over further vertices. */
  lemma {:induction false} ExtendRun(vs: set<Vertex>, rest: set<Vertex>, es: Edges, run: seq<Stage>, out: Edges)
    returns (more: seq<Stage>, end: Edges)
    requires Run(vs, es, run, out) && vs !! rest && Acyclic(out)
    ensures Run(vs + rest, es, more, end) && end <= out
    decreases rest
  {
    hide Run, Survivors, LastVisits, Acyclic;
    if v :| v in rest {
      var d := SomeVisits(out, v);
      SurvivorsFewer(out, d);
      AcyclicSubset(Survivors(out, d), out);
      RunSnoc(vs, es, run, out, v, d);
      assert vs + {v} + (rest - {v}) == vs + rest;
      more, end := ExtendRun(vs + {v}, rest - {v}, es, run + [Stage(v, out, d)], Survivors(out, d));
    } else {
      assert vs + rest == vs;
      more, end := run, out;
    }
  }

  lemma SurvivorsFewer(es: Edges, d: DepthMap)
    ensures Survivors(es, d) <= es
  {}

  lemma LosesReach(vs: set<Vertex>, es: Edges, v: Vertex, p: Vertex, q: Vertex, w: Vertex)
    requires Acyclic(es) && v in vs && Lopsided(es, v, p, q, w) && !Redundant(es, Edge(p, w))
    ensures !KeepsReach(vs, es)
  {
    hide Acyclic, LastVisits, SameReach, Survivors, ForkedBelow;
    var d := ForkRecords(es, v, p, q);
    assert Run({}, es, [], es);
    RunSnoc({}, es, [], es, v, d);
    hide Run;
    SurvivorsFewer(es, d);
    AcyclicSubset(Survivors(es, d), es);
    assert {v} + (vs - {v}) == vs && [] + [Stage(v, es, d)] == [Stage(v, es, d)] && {} + {v} == {v};
    var run, out := ExtendRun({v}, vs - {v}, es, [Stage(v, es, d)], Survivors(es, d));
    LosesInPass(es, d, p, q, w);
    if SameReach(es, out) { SandwichedReach(es, Survivors(es, d), out); }
  }

  lemma LosesInPass(es: Edges, d: DepthMap, p: Vertex, q: Vertex, w: Vertex)
    requires Acyclic(es) && Edge(p, w) in es && Edge(q, w) in es && p in d && q in d && d[p] < d[q]
    requires !Redundant(es, Edge(p, w))
    ensures !SameReach(es, Survivors(es, d))
  {
    hide Acyclic, SameReach;
    assert !Deepest(es, d, Edge(p, w));
    PassKeepsReachIff(es, d);
  }

  /** Exactly when does the reduction keep the reachability relation, whatever order the walks take? */
  lemma KeepsReachIff(vs: set<Vertex>, es: Edges)
    requires Acyclic(es)
    ensures KeepsReach(vs, es) <==> LevelParents(vs, es)
  {
    if LevelParents(vs, es) {
      forall run, out | Run(vs, es, run, out)
        ensures SameReach(es, out)
      {
        LevelRun(vs, vs, es, run, out);
      }
    } else {
      var v, p, q, w :| v in vs && Lopsided(es, v, p, q, w) && !Redundant(es, Edge(p, w));
      LosesReach(vs, es, v, p, q, w);
    }
  }

  // ----- five vertices where every run loses an edge -----

  /** r -> a -> c and r -> b -> d -> c. */
  const BypassVertices: set<Vertex> := {"r", "a", "b", "c", "d"}
  const Lost: Edge := Edge("a", "c")
  const BypassKept: Edges := {Edge("r", "a"), Edge("r", "b"), Edge("b", "d"), Edge("d", "c")}
  const BypassEdges: Edges := BypassKept + {Lost}

  function Rank(v: Vertex): nat {
    if v == "r" then 0 else if v == "a" || v == "b" then 1 else if v == "d" then 2 else 3
  }

  lemma {:induction false} BypassRank(a: Vertex, p: seq<Vertex>, b: Vertex)
    requires Walk(BypassEdges, a, p, b)
    ensures p == [] || Rank(a) < Rank(b)
    decreases |p|
  {
    if p != [] { BypassRank(p[0], p[1..], b); }
  }

  lemma BypassAcyclic()
    ensures Acyclic(BypassEdges)
  {
    forall v, p | Walk(BypassEdges, v, p, v)
      ensures p == []
    {
      BypassRank(v, p, v);
    }
  }

  /** Walks to a, and to d, have one length each. */
  lemma BypassLengths(es: Edges, p: seq<Vertex>, x: Vertex)
    requires es <= BypassEdges && Walk(es, "r", p, x) && (x == "a" || x == "d")
    ensures |p| == Rank(x)
  {
    WalkMonotone(es, BypassEdges, "r", p, x);
    BypassRank("r", p, x);
    var y := WalkLast(BypassEdges, "r", p, x);
    BypassRank("r", p[..|p| - 1], y);
    if x == "d" {
      var z := WalkLast(BypassEdges, "r", p[..|p| - 1], y);
      BypassRank("r", p[..|p| - 1][..|p| - 2], z);
    }
  }

  /** Only c has two parents. */
  lemma LoneParents(es: Edges, d: DepthMap, e: Edge)
    requires es <= BypassEdges && e in es && e.from in d
    requires e.to == "c" ==> !("a" in d && "d" in d && Lost in es)
    ensures Deepest(es, d, e)
  {}

  /** Every pass keeps the four other edges. */
  lemma BypassPass(es: Edges, v: Vertex, d: DepthMap)
    requires BypassKept <= es <= BypassEdges && DepthsFrom(es, v, d) && v in BypassVertices
    ensures Survivors(es, d) == if v == "r" then BypassKept else es
  {
    hide DepthsFrom, Deepest;
    if "a" in d && "d" in d && Lost in es {
      BothRecorded(es, v, d);
      DropsLost(es, d);
    } else if v == "r" {
      RootRecords(es, d);
      assert es == BypassKept;
    }
    forall e | e in es && e.from in d && !("a" in d && "d" in d && Lost in es && e.to == "c")
      ensures Deepest(es, d, e)
    {
      LoneParents(es, d, e);
    }
  }

  lemma DropsLost(es: Edges, d: DepthMap)
    requires BypassKept <= es <= BypassEdges && "a" in d && "d" in d && d["a"] < d["d"] && Lost in es
    ensures !Deepest(es, d, Lost) && Deepest(es, d, Edge("d", "c"))
  {
    assert Edge("d", "c") in es;
    assert forall p :: Edge(p, "c") in es ==> p == "a" || p == "d";
  }

  lemma RootRecords(es: Edges, d: DepthMap)
    requires BypassKept <= es <= BypassEdges && DepthsFrom(es, "r", d)
    ensures "a" in d && "d" in d && d["a"] == 2 && d["d"] == 3
  {
    EdgeWalk(es, "r", "a");
    EdgeWalk(es, "r", "b");
    ReachesEdge(es, "r", "b", "d");
    ReachMember(es, "r", "a");
    ReachMember(es, "r", "d");
    assert IsDepth(es, "r", "a", d["a"]) && IsDepth(es, "r", "d", d["d"]);
    var p :| Walk(es, "r", p, "a") && d["a"] == |p| + 1;
    var q :| Walk(es, "r", q, "d") && d["d"] == |q| + 1;
    BypassLengths(es, p, "a");
    BypassLengths(es, q, "d");
  }

  /** Only a pass from r records both parents of c. */
  lemma BothRecorded(es: Edges, v: Vertex, d: DepthMap)
    requires BypassKept <= es <= BypassEdges && DepthsFrom(es, v, d) && "a" in d && "d" in d
    ensures v == "r" && d["a"] < d["d"]
  {
    if v == "r" {
      RootRecords(es, d);
    } else {
      ReachMember(es, v, "a");
      ReachMember(es, v, "d");
      var p :| Walk(es, v, p, "a");
      var q :| Walk(es, v, q, "d");
      WalkMonotone(es, BypassEdges, v, p, "a");
      WalkMonotone(es, BypassEdges, v, q, "d");
      BypassRank(v, p, "a");
      BypassRank(v, q, "d");
      ShortParents(v, p, q);
    }
  }

  lemma ShortParents(v: Vertex, p: seq<Vertex>, q: seq<Vertex>)
    requires Walk(BypassEdges, v, p, "a") && Walk(BypassEdges, v, q, "d")
    ensures v == "r"
  {
    if p == [] {
      var y := WalkLast(BypassEdges, v, q, "d");
      BypassRank(v, q[..|q| - 1], y);
    } else {
      var y := WalkLast(BypassEdges, v, p, "a");
      BypassRank(v, p[..|p| - 1], y);
    }
  }

  lemma {:induction false} BypassRun(vs: set<Vertex>, run: seq<Stage>, out: Edges)
    requires vs <= BypassVertices && Run(vs, BypassEdges, run, out)
    ensures out == if "r" in vs then BypassKept else BypassEdges
    decreases |run|
  {
    if run != [] {
      var s := run[|run| - 1];
      BypassRun(vs - {s.start}, run[..|run| - 1], s.before);
      LastVisitsAreDepths(s.before, s.start, s.depth);
      BypassPass(s.before, s.start, s.depth);
    }
  }

  /** Every run, in whatever order, loses that a leads to c. */
  lemma BypassLoses(run: seq<Stage>, out: Edges)
    requires Run(BypassVertices, BypassEdges, run, out)
    ensures out == BypassKept && Reaches(BypassEdges, "a", "c") && !Reaches(out, "a", "c")
  {
    BypassRun(BypassVertices, run, out);
    EdgeWalk(BypassEdges, "a", "c");
    forall p
      ensures !Walk(out, "a", p, "c")
    {
      assert forall x :: Edge("a", x) !in BypassKept;
    }
  }
}
