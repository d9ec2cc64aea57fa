/** The executor on the graph that the transitive reduction leaves. */
module EndToEnd {
  import opened Graphs
  import opened Reduction
  import opened DepthFirst
  import opened ReductionLimits
  import opened Executor
  import opened ExecutorSafety
  import opened ExecutorProgress
  import opened ExecutorRuns
  import opened ExecutorSchedules
  import opened ExecutorDeadlocks
  import opened ExecutorRaces
  import opened DagStore

  /** A graph the executor can run from its root. */
  ghost predicate Runnable(vs: set<Vertex>, es: Edges, root: Vertex) {
    WellFormed(Config(vs, es, root, true)) && Acyclic(es) && Rooted(vs, es, root)
  }

  /** What is reduced stays fit for the executor, and no edge of it is redundant any more. */
  lemma ReducedIsFit(vs: set<Vertex>, es: Edges, root: Vertex, out: Edges)
    requires Runnable(vs, es, root) && Reduced(vs, es, out)
    ensures Runnable(vs, out, root) && Irredundant(out)
  {
    if u :| u in Deps(out, root) {
      DepsDowns(out, u, root);
      DepsDowns(es, u, root);
    }
  }

  /** Reduction takes the deadlocks away where at most one fork is left, whatever they were before. */
  lemma ReducedDeadlockFree(vs: set<Vertex>, es: Edges, root: Vertex, out: Edges)
    requires Runnable(vs, es, root) && Reduced(vs, es, out) && AtMostOneFork(out)
    ensures !CanDeadlock(Config(vs, out, root, true))
  {
    ReducedIsFit(vs, es, root, out);
    DeadlockFreeIff(Config(vs, out, root, true));
  }

  /** With the check of the code, the reduced graph can deadlock exactly where two dependencies are left to
      some vertex. */
  lemma ReducedRaces(vs: set<Vertex>, es: Edges, root: Vertex, out: Edges)
    requires Runnable(vs, es, root) && Reduced(vs, es, out)
    ensures CanDeadlock(Config(vs, out, root, false)) <==> exists w :: FanIn(out, w)
  {
    hide CanDeadlock, Rooted, Acyclic;
    ReducedIsFit(vs, es, root, out);
    RacyDeadlockFreeIff(Config(vs, out, root, false));
  }

  /** The same about the store: reduced in place, it is ready to run. */
  method ReduceToRun<T>(dag: Dag<T>, root: Vertex)
    requires dag.Valid() && Runnable(dag.vertices.Keys, dag.Edges(), root)
    modifies dag
    ensures dag.Valid() && Runnable(dag.vertices.Keys, dag.Edges(), root)
    ensures AtMostOneFork(dag.Edges()) ==> !CanDeadlock(Config(dag.vertices.Keys, dag.Edges(), root, true))
    ensures dag.vertices == old(dag.vertices) && dag.Edges() <= old(dag.Edges())
  {
    ghost var es := dag.Edges();
    NoCycleInAcyclic(dag.vertices.Keys, es);
    dag.TransitiveReduction();
    ReducedIsFit(dag.vertices.Keys, es, root, dag.Edges());
    if AtMostOneFork(dag.Edges()) {
      ReducedDeadlockFree(dag.vertices.Keys, es, root, dag.Edges());
    }
  }

  // ----- which orders survive -----

  /** Every order that the executor enforces on es it enforces on out. */
  ghost predicate KeepsOrders(vs: set<Vertex>, es: Edges, out: Edges, root: Vertex) {
    forall u, w :: w in vs && u != w && Forced(Config(vs, es, root, true), u, w) ==>
      Forced(Config(vs, out, root, true), u, w)
  }

  lemma OrdersAreReach(vs: set<Vertex>, es: Edges, out: Edges, root: Vertex)
    requires Runnable(vs, es, root) && Runnable(vs, out, root) && out <= es
    ensures KeepsOrders(vs, es, out, root) <==> SameReach(es, out)
  {
    hide Forced, Acyclic, Rooted;
    var c, d := Config(vs, es, root, true), Config(vs, out, root, true);
    if SameReach(es, out) {
      forall u, w | w in vs && u != w && Forced(c, u, w)
        ensures Forced(d, u, w)
      {
        OrderIff(c, u, w);
        OrderIff(d, u, w);
      }
    }
    if KeepsOrders(vs, es, out, root) {
      forall a, b
        ensures Reaches(es, a, b) <==> Reaches(out, a, b)
      {
        if Reaches(out, a, b) { ReachesMonotone(out, es, a, b); }
        if Reaches(es, a, b) && a != b {
          var y := ReachesParent(es, a, b);
          assert Edge(y, b).to in vs;
          OrderIff(c, a, b);
          OrderIff(d, a, b);
        }
        if a == b { ReachesSelf(out, a); }
      }
    }
  }

  ghost predicate ReductionKeepsOrders(vs: set<Vertex>, es: Edges, root: Vertex) {
    forall run, out :: Run(vs, es, run, out) ==> KeepsOrders(vs, es, out, root)
  }

  /** Reducing the graph never changes the order in which the executor may run functions if and only if
      every edge from a parent that a fork can leave less deep than another is redundant. */
  lemma OrderKeptIff(vs: set<Vertex>, es: Edges, root: Vertex)
    requires Runnable(vs, es, root)
    ensures ReductionKeepsOrders(vs, es, root) <==> LevelParents(vs, es)
  {
    hide KeepsOrders, LevelParents, Runnable, Acyclic, Rooted, SameReach;
    assert Acyclic(es) by { RunnableAcyclic(vs, es, root); }
    forall run, out | Run(vs, es, run, out)
      ensures KeepsOrders(vs, es, out, root) <==> SameReach(es, out)
    {
      RunReduces(vs, es, run, out);
      ReducedIsFit(vs, es, root, out);
      OrdersAreReach(vs, es, out, root);
    }
    KeepsReachIff(vs, es);
    if ReductionKeepsOrders(vs, es, root) {
      forall run, out | Run(vs, es, run, out)
        ensures SameReach(es, out)
      {
        assert KeepsOrders(vs, es, out, root);
      }
    }
  }

  lemma RunnableAcyclic(vs: set<Vertex>, es: Edges, root: Vertex)
    requires Runnable(vs, es, root)
    ensures Acyclic(es)
  {}

  lemma BypassRunnable()
    ensures Runnable(BypassVertices, BypassEdges, "r")
  {
    BypassAcyclic();
    ReachesSelf(BypassEdges, "r");
    EdgeWalk(BypassEdges, "r", "a");
    EdgeWalk(BypassEdges, "r", "b");
    ReachesEdge(BypassEdges, "r", "b", "d");
    ReachesEdge(BypassEdges, "r", "d", "c");
  }

  /** On the five vertices, whichever way the reduction goes: before it c waited for a, after it the
      executor can begin c while a has not begun. */
  lemma ReductionReorders(run: seq<Stage>, out: Edges) returns (s: State)
    requires Run(BypassVertices, BypassEdges, run, out)
    ensures Forced(Config(BypassVertices, BypassEdges, "r", true), "a", "c")
    ensures Reachable(Config(BypassVertices, out, "r", true), s) && Started("c") in s.log && Started("a") !in s.log
  {
    BypassRunnable();
    BypassLoses(run, out);
    RunReduces(BypassVertices, BypassEdges, run, out);
    ReducedIsFit(BypassVertices, BypassEdges, "r", out);
    OrderIff(Config(BypassVertices, BypassEdges, "r", true), "a", "c");
    s := NotForced(Config(BypassVertices, out, "r", true), "a", "c");
  }
}
