/** What one pass of TransitiveReduction does to the edge set, and what a whole run of passes keeps. */
module Reduction {
  import opened Graphs
  import opened DepthFirst

  /** n is one more than the length of some walk from v to x. */
  ghost predicate IsDepth(es: Edges, v: Vertex, x: Vertex, n: nat) {
    exists p :: Walk(es, v, p, x) && n == |p| + 1
  }

  /** Exactly what v reaches is recorded, each vertex with the length of some walk. The last visits of a
      depth-first walk are like that; most of what a pass does needs no more. */
  ghost predicate DepthsFrom(es: Edges, v: Vertex, d: DepthMap) {
    && d.Keys == Reach(es, v)
    && forall x :: x in d ==> IsDepth(es, v, x, d[x])
  }

  /** No recorded parent of e.to is deeper than e.from. */
  ghost predicate Deepest(es: Edges, d: DepthMap, e: Edge)
    requires e.from in d
  {
    forall p :: Edge(p, e.to) in es && p in d ==> d[p] <= d[e.from]
  }

  /** The edges that the second walk keeps: all edges from unrecorded vertices, and from
      recorded ones those that come from a deepest recorded parent. */
  ghost function Survivors(es: Edges, d: DepthMap): Edges {
    set e | e in es && (e.from in d ==> Deepest(es, d, e))
  }

  lemma LastVisitsAreDepths(es: Edges, v: Vertex, d: DepthMap)
    requires LastVisits(es, v, d)
    ensures DepthsFrom(es, v, d)
  {
    var t :| Explores(es, t) && t.v == v && d == Record(t, 1, map[]);
    forall x
      ensures x in d <==> x in Reach(es, v)
    {
      RecordsReach(es, t, 1, x);
      ReachMember(es, v, x);
    }
    forall x | x in d
      ensures IsDepth(es, v, x, d[x])
    {
      RecordsReach(es, t, 1, x);
      RecordOwn(es, t, 1, map[], x);
    }
  }

  // ----- one pass -----

  lemma StartDepth(es: Edges, v: Vertex, d: DepthMap)
    requires Acyclic(es) && DepthsFrom(es, v, d)
    ensures v in d && d[v] == 1
    ensures forall x :: x in d && x != v ==> d[x] >= 2
  {
    ReachesSelf(es, v);
    ReachMember(es, v, v);
    assert IsDepth(es, v, v, d[v]);
    forall x | x in d && x != v
      ensures d[x] >= 2
    {
      assert IsDepth(es, v, x, d[x]);
      var p :| Walk(es, v, p, x) && d[x] == |p| + 1;
    }
  }

  /** A vertex with a recorded parent has a deepest recorded parent. */
  lemma DeepestParent(es: Edges, d: DepthMap, w: Vertex, some: Vertex) returns (p: Vertex)
    requires some in d && Edge(some, w) in es
    ensures p in d && Edge(p, w) in Survivors(es, d)
  {
    p := some;
    var todo := d.Keys;
    while todo != {}
      invariant todo <= d.Keys && p in d && Edge(p, w) in es
      invariant forall q :: q in d.Keys - todo && Edge(q, w) in es ==> d[q] <= d[p]
      decreases todo
    {
      var q :| q in todo;
      todo := todo - {q};
      if Edge(q, w) in es && d[q] > d[p] { p := q; }
    }
    assert Deepest(es, d, Edge(p, w));
  }

  lemma KeepsSomeParent(es: Edges, d: DepthMap, w: Vertex)
    requires Deps(es, w) != {}
    ensures Deps(Survivors(es, d), w) != {}
  {
    var u :| u in Deps(es, w);
    DepsDowns(es, u, w);
    if u in d {
      var p := DeepestParent(es, d, w, u);
      DepsDowns(Survivors(es, d), p, w);
    } else {
      assert Edge(u, w) in Survivors(es, d);
      DepsDowns(Survivors(es, d), u, w);
    }
  }

  /** Every vertex that the start reaches is still reached from it: follow deepest parents upwards. */
  lemma {:induction false} PassKeepsStart(es: Edges, v: Vertex, d: DepthMap, x: Vertex)
    requires Acyclic(es) && DepthsFrom(es, v, d) && Reaches(es, v, x)
    ensures Reaches(Survivors(es, d), v, x)
    decreases Ancestry(es, x)
  {
    if x == v {
      ReachesSelf(Survivors(es, d), v);
    } else {
      var y := ReachesParent(es, v, x);
      ReachMember(es, v, y);
      var p := DeepestParent(es, d, x, y);
      ReachMember(es, v, p);
      ReachShrinks(es, p, x);
      PassKeepsStart(es, v, d, p);
      ReachesEdge(Survivors(es, d), v, p, x);
    }
  }

  /** An edge into a vertex that the start does not reach survives. */
  lemma {:induction false} KeepsOutside(es: Edges, v: Vertex, d: DepthMap, a: Vertex, b: Vertex)
    requires Acyclic(es) && DepthsFrom(es, v, d) && Reaches(es, a, b) && (b == v || !Reaches(es, v, b))
    ensures Reaches(Survivors(es, d), a, b)
    decreases Ancestry(es, b)
  {
    if a == b {
      ReachesSelf(Survivors(es, d), a);
    } else {
      var y := ReachesParent(es, a, b);
      ReachShrinks(es, y, b);
      ReachMember(es, v, y);
      if Reaches(es, v, y) {
        ReachesEdge(es, v, y, b);
        NoWayBack(es, y, b);
        assert false;
      }
      KeepsOutside(es, v, d, a, y);
      assert Edge(y, b) in Survivors(es, d);
      ReachesEdge(Survivors(es, d), a, y, b);
    }
  }

  /** Whatever reaches the start keeps reaching all it reached. */
  lemma PassKeepsAncestor(es: Edges, v: Vertex, d: DepthMap, r: Vertex, x: Vertex)
    requires Acyclic(es) && DepthsFrom(es, v, d) && Reaches(es, r, v) && Reaches(es, r, x)
    ensures Reaches(Survivors(es, d), r, x)
  {
    if Reaches(es, v, x) {
      KeepsOutside(es, v, d, r, v);
      PassKeepsStart(es, v, d, x);
      ReachesTrans(Survivors(es, d), r, v, x);
    } else {
      KeepsOutside(es, v, d, r, x);
    }
  }

  /** In the pass from u, an edge u -> w is removed exactly when it is redundant. */
  lemma ExactAtStart(es: Edges, u: Vertex, d: DepthMap, w: Vertex)
    requires Acyclic(es) && DepthsFrom(es, u, d) && Edge(u, w) in es
    ensures Edge(u, w) !in Survivors(es, d) <==> Redundant(es, Edge(u, w))
  {
    StartDepth(es, u, d);
    RedundantByParent(es, u, w);
    if y :| y != u && Edge(y, w) in es && Reaches(es, u, y) {
      ReachMember(es, u, y);
      assert d[y] >= 2 && !Deepest(es, d, Edge(u, w));
    } else {
      forall p | Edge(p, w) in es && p in d
        ensures d[p] <= d[u]
      {
        ReachMember(es, u, p);
      }
    }
  }

  /** Dropping only edges that are redundant keeps reachability: the walk around an edge
      lies strictly between its ends. */
  lemma {:induction false} ReachSurvives(es: Edges, fs: Edges, a: Vertex, b: Vertex)
    requires Acyclic(es) && fs <= es && (forall e :: e in es - fs ==> Redundant(es, e))
    requires Reaches(es, a, b)
    ensures Reaches(fs, a, b)
    decreases Reach(es, a) * Ancestry(es, b)
  {
    if a == b {
      ReachesSelf(fs, a);
    } else if Edge(a, b) in fs {
      EdgeWalk(fs, a, b);
    } else {
      var p := LongWalk(es, fs, a, b);
      var y := p[0];
      assert Walk(es, y, p[1..], b);
      EdgeWalk(es, a, y);
      if y == b { assert false; }
      BetweenShrinks(es, a, y, b);
      ReachSurvives(es, fs, a, y);
      ReachSurvives(es, fs, y, b);
      ReachesTrans(fs, a, y, b);
    }
  }

  lemma LongWalk(es: Edges, fs: Edges, a: Vertex, b: Vertex) returns (p: seq<Vertex>)
    requires fs <= es && (forall e :: e in es - fs ==> Redundant(es, e))
    requires Reaches(es, a, b) && a != b && Edge(a, b) !in fs
    ensures |p| >= 2 && Walk(es, a, p, b)
  {
    if Edge(a, b) in es {
      assert Edge(a, b) in es - fs;
      p :| |p| >= 2 && Walk(es, a, p, b);
    } else {
      p :| Walk(es, a, p, b);
      if |p| <= 1 { ShortWalk(es, a, p, b); }
    }
  }

  lemma BetweenShrinks(es: Edges, a: Vertex, y: Vertex, b: Vertex)
    requires Acyclic(es) && a != b && y != b && Edge(a, y) in es && Reaches(es, y, b)
    ensures Reach(es, a) * Ancestry(es, y) < Reach(es, a) * Ancestry(es, b)
    ensures Reach(es, y) * Ancestry(es, b) < Reach(es, a) * Ancestry(es, b)
  {
    var whole := Reach(es, a) * Ancestry(es, b);
    ReachShrinks(es, a, y);
    NoWayBack(es, a, y);
    EdgeReaches(es, a, y, b);
    forall x | x in Ancestry(es, y)
      ensures x in Ancestry(es, b)
    {
      ReachMember(es, y, x);
      ReachesTrans(es, x, y, b);
      ReachMember(es, b, x);
    }
    ReachesSelf(es, a);
    ReachesSelf(es, b);
    ReachMember(es, a, a);
    ReachMember(es, a, b);
    ReachMember(es, b, a);
    ReachMember(es, b, b);
    assert a in whole && b in whole;
    ReachMember(es, y, a);
    ReachMember(es, y, b);
    if Reaches(es, b, y) { AntiSymmetric(es, b, y); }
    assert b !in Ancestry(es, y) && a !in Reach(es, y);
    assert Reach(es, a) * Ancestry(es, y) <= whole && Reach(es, y) * Ancestry(es, b) <= whole;
  }

  /** A pass keeps the reachability relation exactly when the depth test removes no edge
      that is the only way from its source to its target. */
  lemma PassKeepsReachIff(es: Edges, d: DepthMap)
    requires Acyclic(es)
    ensures SameReach(es, Survivors(es, d)) <==> forall e :: e in es - Survivors(es, d) ==> Redundant(es, e)
  {
    var fs := Survivors(es, d);
    if SameReach(es, fs) {
      forall e | e in es - fs
        ensures Redundant(es, e)
      {
        RemovedIsRedundant(es, fs, e);
      }
    }
    if forall e :: e in es - fs ==> Redundant(es, e) {
      forall a, b
        ensures Reaches(es, a, b) <==> Reaches(fs, a, b)
      {
        if Reaches(es, a, b) { ReachSurvives(es, fs, a, b); }
        if Reaches(fs, a, b) { ReachesMonotone(fs, es, a, b); }
      }
    }
  }

  lemma RemovedIsRedundant(es: Edges, fs: Edges, e: Edge)
    requires Acyclic(es) && fs <= es && SameReach(es, fs) && e in es - fs
    ensures Redundant(es, e)
  {
    EdgeWalk(es, e.from, e.to);
    assert Reaches(fs, e.from, e.to);
    var p :| Walk(fs, e.from, p, e.to);
    WalkMonotone(fs, es, e.from, p, e.to);
    NoWayBack(es, e.from, e.to);
    if |p| <= 1 { ShortWalk(fs, e.from, p, e.to); }
  }

  // ----- a run: one pass from every vertex, in some order -----

  datatype Stage = Stage(start: Vertex, before: Edges, depth: DepthMap)

  /** run lists the passes, from each vertex of vs once, that lead from es to out. */
  ghost predicate Run(vs: set<Vertex>, es: Edges, run: seq<Stage>, out: Edges)
    decreases |run|
  {
    if run == [] then vs == {} && out == es
    else
      var s := run[|run| - 1];
      && s.start in vs
      && Run(vs - {s.start}, es, run[..|run| - 1], s.before)
      && LastVisits(s.before, s.start, s.depth)
      && out == Survivors(s.before, s.depth)
  }

  lemma RunSnoc(vs: set<Vertex>, es: Edges, run: seq<Stage>, out: Edges, v: Vertex, d: DepthMap)
    requires Run(vs, es, run, out) && v !in vs && LastVisits(out, v, d)
    ensures Run(vs + {v}, es, run + [Stage(v, out, d)], Survivors(out, d))
  {
    assert (run + [Stage(v, out, d)])[..|run|] == run;
    assert vs + {v} - {v} == vs;
  }

  /** Edges are only removed. */
  lemma {:induction false} RunShrinks(vs: set<Vertex>, es: Edges, run: seq<Stage>, out: Edges)
    requires Run(vs, es, run, out)
    ensures out <= es
    decreases |run|
  {
    if run != [] {
      var s := run[|run| - 1];
      RunShrinks(vs - {s.start}, es, run[..|run| - 1], s.before);
    }
  }

  /** After the run no edge that leaves a vertex of vs has a way around it. */
  lemma {:induction false} RunIrredundant(vs: set<Vertex>, es: Edges, run: seq<Stage>, out: Edges, e: Edge)
    requires Acyclic(es) && Run(vs, es, run, out) && e in out && e.from in vs
    ensures !Redundant(out, e)
    decreases |run|
  {
    var s := run[|run| - 1];
    RunShrinks(vs - {s.start}, es, run[..|run| - 1], s.before);
    AcyclicSubset(s.before, es);
    if e.from == s.start {
      LastVisitsAreDepths(s.before, s.start, s.depth);
      ExactAtStart(s.before, s.start, s.depth, e.to);
    } else {
      RunIrredundant(vs - {s.start}, es, run[..|run| - 1], s.before, e);
    }
    if Redundant(out, e) {
      var p :| |p| >= 2 && Walk(out, e.from, p, e.to);
      WalkMonotone(out, s.before, e.from, p, e.to);
      assert false;
    }
  }

  /** A root of the whole graph stays one. */
  lemma {:induction false} RunKeepsRoot(vs: set<Vertex>, all: set<Vertex>, es: Edges, run: seq<Stage>, out: Edges,
                                        r: Vertex)
    requires Acyclic(es) && Run(vs, es, run, out) && vs <= all && Rooted(all, es, r)
    ensures Rooted(all, out, r)
    decreases |run|
  {
    if run != [] {
      var s := run[|run| - 1];
      RunKeepsRoot(vs - {s.start}, all, es, run[..|run| - 1], s.before, r);
      RunShrinks(vs - {s.start}, es, run[..|run| - 1], s.before);
      AcyclicSubset(s.before, es);
      LastVisitsAreDepths(s.before, s.start, s.depth);
      forall x | x in all
        ensures Reaches(out, r, x)
      {
        PassKeepsAncestor(s.before, s.start, s.depth, r, x);
      }
    }
  }

  /** A vertex that had a parent still has one. */
  lemma {:induction false} RunKeepsSomeParent(vs: set<Vertex>, es: Edges, run: seq<Stage>, out: Edges, w: Vertex)
    requires Run(vs, es, run, out) && Deps(es, w) != {}
    ensures Deps(out, w) != {}
    decreases |run|
  {
    if run != [] {
      var s := run[|run| - 1];
      RunKeepsSomeParent(vs - {s.start}, es, run[..|run| - 1], s.before, w);
      KeepsSomeParent(s.before, s.depth, w);
    }
  }

  /** An edge from a vertex that is not in the graph, and that nothing leads to, is never removed. */
  lemma {:induction false} RunKeepsForeign(vs: set<Vertex>, es: Edges, run: seq<Stage>, out: Edges, e: Edge)
    requires Run(vs, es, run, out) && e in es && e.from !in vs && Deps(es, e.from) == {}
    ensures e in out
    decreases |run|
  {
    if run != [] {
      var s := run[|run| - 1];
      RunKeepsForeign(vs - {s.start}, es, run[..|run| - 1], s.before, e);
      RunShrinks(vs - {s.start}, es, run[..|run| - 1], s.before);
      LastVisitsAreDepths(s.before, s.start, s.depth);
      if e.from in s.depth {
        assert IsDepth(s.before, s.start, e.from, s.depth[e.from]);
        var p :| Walk(s.before, s.start, p, e.from);
        var y := WalkLast(s.before, s.start, p, e.from);
        DepsDowns(es, y, e.from);
      }
    }
  }

  /** out has lost only edges of es; no edge out of vs has a way around it; the roots of es are
      roots of out, and every vertex with a parent still has one. */
  ghost predicate Reduced(vs: set<Vertex>, es: Edges, out: Edges) {
    && out <= es && Acyclic(out)
    && (forall e :: e in out && e.from in vs ==> !Redundant(out, e))
    && (forall r :: Rooted(vs, es, r) ==> Rooted(vs, out, r))
    && (forall w :: Deps(es, w) != {} ==> Deps(out, w) != {})
  }

  /** What every run of passes keeps and achieves, whatever the order of the passes and walks. */
  lemma RunReduces(vs: set<Vertex>, es: Edges, run: seq<Stage>, out: Edges)
    requires Acyclic(es) && Run(vs, es, run, out)
    ensures Reduced(vs, es, out)
  {
    RunShrinks(vs, es, run, out);
    AcyclicSubset(out, es);
    forall e | e in out && e.from in vs
      ensures !Redundant(out, e)
    {
      RunIrredundant(vs, es, run, out, e);
    }
    forall r | Rooted(vs, es, r)
      ensures Rooted(vs, out, r)
    {
      RunKeepsRoot(vs, vs, es, run, out, r);
    }
    forall w | Deps(es, w) != {}
      ensures Deps(out, w) != {}
    {
      RunKeepsSomeParent(vs, es, run, out, w);
    }
  }

  lemma SurvivorsPart(es: Edges, r: set<Vertex>, d: DepthMap)
    requires d.Keys <= r
    ensures Survivors(Part(es, r), d) == Part(Survivors(es, d), r)
    ensures es - Part(es, r) <= Survivors(es, d) <= es
  {
    forall e | e in Part(es, r) && e.from in d
      ensures Deepest(es, d, e) <==> Deepest(Part(es, r), d, e)
    {}
  }

  ghost function PartRun(run: seq<Stage>, r: set<Vertex>): (q: seq<Stage>)
    ensures |q| == |run|
  {
    if run == [] then []
    else
      var s := run[|run| - 1];
      PartRun(run[..|run| - 1], r) + [Stage(s.start, Part(s.before, r), s.depth)]
  }

  /** A run of passes from vertices of r is one on the part below r, and leaves all other edges alone. */
  lemma {:induction false} RunPart(vs: set<Vertex>, es: Edges, r: set<Vertex>, run: seq<Stage>, out: Edges)
    requires Run(vs, es, run, out) && Closed(es, r) && vs <= r
    ensures Run(vs, Part(es, r), PartRun(run, r), Part(out, r)) && es - Part(es, r) <= out <= es
    decreases |run|
  {
    if run != [] {
      var s := run[|run| - 1];
      RunPart(vs - {s.start}, es, r, run[..|run| - 1], s.before);
      LastVisitsPart(s.before, r, s.start, s.depth);
      SurvivorsPart(s.before, r, s.depth);
      assert PartRun(run, r)[..|run| - 1] == PartRun(run[..|run| - 1], r);
    }
  }

  /** So it is enough that no cycle lies below a vertex that has a pass. */
  lemma RunReducesBelow(vs: set<Vertex>, es: Edges, run: seq<Stage>, out: Edges)
    requires NoCycleBelow(vs, es) && Run(vs, es, run, out)
    ensures Reduced(vs, Below(vs, es), out * Below(vs, es)) && es - Below(vs, es) <= out <= es
  {
    hide Acyclic, Run, Reduced;
    var r := Under(vs, es);
    AcyclicBelow(vs, es);
    UnderClosed(vs, es);
    RunPart(vs, es, r, run, out);
    assert Part(out, r) == out * Part(es, r);
    RunReduces(vs, Part(es, r), PartRun(run, r), Part(out, r));
  }

  lemma SandwichedReach(es: Edges, mid: Edges, out: Edges)
    requires out <= mid <= es && SameReach(es, out)
    ensures SameReach(es, mid) && SameReach(mid, out)
  {
    forall a, b
      ensures Reaches(es, a, b) <==> Reaches(mid, a, b)
      ensures Reaches(mid, a, b) <==> Reaches(out, a, b)
    {
      if Reaches(out, a, b) { ReachesMonotone(out, mid, a, b); }
      if Reaches(mid, a, b) { ReachesMonotone(mid, es, a, b); }
    }
  }

  /** No pass removes an edge that is the only way from its source to its target. */
  ghost predicate RemovesOnlyRedundant(run: seq<Stage>) {
    forall i :: 0 <= i < |run| ==>
      forall e :: e in run[i].before - Survivors(run[i].before, run[i].depth) ==> Redundant(run[i].before, e)
  }

  lemma ReachInTwo(es: Edges, mid: Edges, out: Edges)
    requires out <= mid <= es
    ensures SameReach(es, out) <==> SameReach(es, mid) && SameReach(mid, out)
  {
    if SameReach(es, out) { SandwichedReach(es, mid, out); }
  }

  lemma RedundantInTwo(run: seq<Stage>)
    requires run != []
    ensures var s := run[|run| - 1];
            RemovesOnlyRedundant(run) <==>
              && RemovesOnlyRedundant(run[..|run| - 1])
              && forall e :: e in s.before - Survivors(s.before, s.depth) ==> Redundant(s.before, e)
  {
    hide Survivors, Redundant;
    assert forall i :: 0 <= i < |run| - 1 ==> run[..|run| - 1][i] == run[i];
  }

  /** A whole run keeps the reachability relation exactly when each of its passes removes
      only redundant edges. */
  lemma {:induction false} RunKeepsReachIff(vs: set<Vertex>, es: Edges, run: seq<Stage>, out: Edges)
    requires Acyclic(es) && Run(vs, es, run, out)
    ensures SameReach(es, out) <==> RemovesOnlyRedundant(run)
    decreases |run|
  {
    if run != [] {
      var s := run[|run| - 1];
      RunShrinks(vs - {s.start}, es, run[..|run| - 1], s.before);
      RunKeepsReachIff(vs - {s.start}, es, run[..|run| - 1], s.before);
      AcyclicSubset(s.before, es);
      PassKeepsReachIff(s.before, s.depth);
      assert out <= s.before;
      hide SameReach, Survivors, Acyclic, LastVisits, Redundant, RemovesOnlyRedundant;
      ReachInTwo(es, s.before, out);
      RedundantInTwo(run);
    }
  }
}
