/** From configuration to execution: what a successful compilation guarantees to the executor, and what
    it leaves to the author of the configuration. */
module Compilation {
  import opened Graphs
  import opened Reduction
  import opened Wrappers
  import opened References
  import opened Pipelines
  import opened Connector
  import opened Compiler
  import opened Executor
  import opened ExecutorSafety
  import opened ExecutorRuns
  import opened ExecutorSchedules
  import opened ExecutorDeadlocks
  import opened ExecutorProgress
  import opened ReductionLimits
  import opened EndToEnd
  import opened ExecDataSchedules
  import opened DepthFirst
  import ExecInit
  import ExecData

  // ----- the edges follow the references -----

  /** u is where the name x comes from. */
  ghost predicate Produces(root: Vertex, a: Functions, d: Functions, u: Vertex, x: Name) {
    (u == root && x == root) || Declares(a, u, x) || Declares(d, u, x)
  }

  lemma TableProduces(root: Vertex, a: Option<Pipeline>, d: Option<Pipeline>, g: Table, x: Name)
    requires IsTable(root, a, d, g) && x in g
    ensures Produces(root, Fns(a), Fns(d), g[x].outputVertex, x)
  {
    var g0: Table := map[root := Info(root)];
    var mid :| Tabulates(g0, mid, Fns(a)) && Tabulates(mid, g, Fns(d));
    if x in mid && x in g0 { assert g[x] == mid[x] == g0[x]; }
  }

  lemma OneProducer(root: Vertex, a: Option<Pipeline>, d: Option<Pipeline>, u: Vertex, v: Vertex, x: Name)
    requires Distinct(root, a, d)
    requires Produces(root, Fns(a), Fns(d), u, x) && Produces(root, Fns(a), Fns(d), v, x)
    ensures u == v || (Declares(Fns(a), u, x) && Declares(Fns(a), v, x)) ||
            (Declares(Fns(d), u, x) && Declares(Fns(d), v, x))
    ensures u == v
  {
    assert forall w :: Declares(Fns(a), w, x) ==> x in DeclaredBy(Fns(a));
  }

  /** After a successful compilation every name that a function of either pipeline looks up has exactly
      one producer in the two pipelines, and the graph of its pipeline has the edge from it. */
  lemma DependencyComplete(root: Vertex, a: Option<Pipeline>, d: Option<Pipeline>, g: Table, fns: Functions,
                           v: Vertex, x: Name)
    requires FitsConfig(root, a, d) && IsTable(root, a, d, g) && (fns == Fns(a) || fns == Fns(d))
    requires v in fns && x in Wanted(fns[v])
    ensures exists u :: Produces(root, Fns(a), Fns(d), u, x) && Edge(u, v) in AllEdges(root, g, fns)
    ensures forall u, w :: Produces(root, Fns(a), Fns(d), u, x) && Produces(root, Fns(a), Fns(d), w, x) ==> u == w
  {
    hide Distinct, Wanted, Known;
    TableIsFlat(root, a, d, g);
    TableProduces(root, a, d, g, x);
    var u := g[x].outputVertex;
    assert Edge(u, v) in RefEdges(g, Wanted(fns[v]), v);
    assert Edge(u, v) in EdgesOf(root, g, v, fns[v]);
    forall u, w | Produces(root, Fns(a), Fns(d), u, x) && Produces(root, Fns(a), Fns(d), w, x)
      ensures u == w
    {
      OneProducer(root, a, d, u, w, x);
    }
  }

  // ----- what the phases do not see -----

  /** A function that refers to one name. */
  function Reader(x: Name): Function {
    Function(map[], Block(None, None), Some(Input(false, "$" + x, "", "", map[], None)), None, [])
  }

  lemma ReaderWants(x: Name)
    requires IsName(x) && Regular(x)
    ensures Texts(Reader(x)) == {"$" + x} && Wanted(Reader(x)) == {x} && TextsNamed(Reader(x))
    ensures forall v :: Declared(v, Reader(x)) == {v}
  {
    var t := "$" + x;
    RefsOfOne(x);
    assert Texts(Reader(x)) == {t};
    NamesInOne(t);
    assert forall y :: y in Refs(t) <==> y == x;
    assert NamesIn({t}) == {x};
  }

  const EmptyPipeline: Option<Pipeline> := Some(Pipeline(map[], map[]))

  /** Resolve finding nothing says nothing: on this pipeline populate and resolve record no error, and
      connect does. */
  lemma ResolveMisses() returns (a: Option<Pipeline>)
    ensures AllNamed(Fns(a)) && Distinct("r", a, EmptyPipeline) && !FitsConfig("r", a, EmptyPipeline)
  {
    hide Refs, Wanted, Texts, TextsNamed, Declared;
    ShortNames();
    ReaderWants("x");
    a := Some(Pipeline(map[], map["v" := Reader("x")]));
    assert Fns(a) == map["v" := Reader("x")];
    assert Fns(EmptyPipeline) == map[];
    assert forall y :: y in DeclaredBy(Fns(a)) <==> y in {"v"} by {
      assert "v" in Fns(a) && Fns(a)["v"] == Reader("x");
      assert Declared("v", Reader("x")) == {"v"};
    }
    assert DeclaredBy(map[]) == {};
    assert "x" in Wanted(Fns(a)["v"]);
  }

  lemma ShortNames()
    ensures IsName("x") && Regular("x") && IsName("v") && Regular("v") && IsName("w") && Regular("w")
  {
    assert |"x"| == |"v"| == |"w"| == 1 && |"VALUE"| == 5 && |"KEY"| == 3 && |"INDEX"| == 5;
  }

  const Mutual: Functions := map["v" := Reader("w"), "w" := Reader("v")]

  lemma MutualFits(a: Option<Pipeline>)
    requires a == Some(Pipeline(map[], Mutual))
    ensures Fns(a) == Mutual && AllNamed(Mutual) && FitsConfig("r", a, EmptyPipeline)
    ensures Wanted(Mutual["v"]) == {"w"} && Wanted(Mutual["w"]) == {"v"}
    ensures Declares(Mutual, "v", "v") && Declares(Mutual, "w", "w")
  {
    hide Refs, Wanted, Texts, TextsNamed, Declared;
    ShortNames();
    ReaderWants("v");
    ReaderWants("w");
    assert Fns(a) == Mutual && Fns(EmptyPipeline) == map[];
    assert forall y :: y in DeclaredBy(Mutual) <==> y in {"v", "w"} by {
      assert "v" in Mutual && "w" in Mutual;
    }
    assert DeclaredBy(map[]) == {};
  }

  lemma MutualEdge(a: Option<Pipeline>, g: Table, u: Vertex, v: Vertex)
    requires Fns(a) == Mutual && FitsConfig("r", a, EmptyPipeline) && IsTable("r", a, EmptyPipeline, g)
    requires v in Mutual && Wanted(Mutual[v]) == {u} && Declares(Mutual, u, u)
    ensures Edge(u, v) in AllEdges("r", g, Mutual)
  {
    hide FitsConfig, IsTable, AllEdges, Wanted, Declares;
    DependencyComplete("r", a, EmptyPipeline, g, Mutual, v, u);
    assert Produces("r", Fns(a), Fns(EmptyPipeline), u, u);
  }

  /** No phase up to the reduction looks for cycles: two functions that refer to each other are accepted,
      and the first walk of the reduction from either has no end. */
  lemma CyclicIsAccepted(g: Table) returns (a: Option<Pipeline>)
    ensures AllNamed(Fns(a)) && FitsConfig("r", a, EmptyPipeline) && "v" in Fns(a)
    ensures IsTable("r", a, EmptyPipeline, g) ==>
              var es := AllEdges("r", g, Fns(a));
              && !Acyclic(es)
              && (forall t :: Explores(es, t) ==> t.v != "v")
              && forall n :: !WalksWithin(es, "v", n)
  {
    a := Some(Pipeline(map[], Mutual));
    hide Wanted, Declares, FitsConfig, IsTable, AllEdges, AllNamed;
    MutualFits(a);
    if IsTable("r", a, EmptyPipeline, g) {
      MutualEdge(a, g, "v", "w");
      MutualEdge(a, g, "w", "v");
      BackAndForth(AllEdges("r", g, Mutual), "v", "w");
      WalkEndsIff(AllEdges("r", g, Mutual), "v");
    }
  }

  lemma BackAndForth(es: Edges, u: Vertex, w: Vertex)
    requires Edge(u, w) in es && Edge(w, u) in es
    ensures !Acyclic(es) && CycleBelow(es, u)
  {
    var p := [w, u];
    assert p[1..] == [u] && [u][1..] == [];
    assert Walk(es, u, [], u);
    assert Walk(es, w, [u], u);
    assert Walk(es, u, p, u);
    ReachesSelf(es, u);
  }

  // ----- blocks -----

  /** An edge from a vertex to itself puts nothing in order. */
  lemma SelfLoopOrdersNothing(es: Edges, s: Vertex, u: Vertex, w: Vertex)
    ensures Reaches(es + {Edge(s, s)}, u, w) <==> Reaches(es, u, w)
  {
    if Reaches(es, u, w) {
      ReachesMonotone(es, es + {Edge(s, s)}, u, w);
    }
    if Reaches(es + {Edge(s, s)}, u, w) {
      var p :| Walk(es + {Edge(s, s)}, u, p, w);
      DropLoops(es, s, u, p, w);
    }
  }

  lemma {:induction false} DropLoops(es: Edges, s: Vertex, u: Vertex, p: seq<Vertex>, w: Vertex)
    requires Walk(es + {Edge(s, s)}, u, p, w)
    ensures Reaches(es, u, w)
    decreases |p|
  {
    if p == [] {
      ReachesSelf(es, u);
    } else {
      DropLoops(es, s, p[0], p[1..], w);
      if Edge(u, p[0]) in es { EdgeReaches(es, u, p[0], w); }
    }
  }

  /** What the executor makes of the vertices vs of a graph. */
  ghost function OnVertices(vs: set<Vertex>, es: Edges, root: Vertex): Config {
    Config(vs, ExecInit.Into(es, vs), root, true)
  }

  /** Inside a block, a name x that is declared outside: nothing is reported, and the outer graph and the
      executor on it order two vertices exactly where a path joined them before. So the vertex of the
      block, whichever it is, waits for the producer of x only if it would have done so anyway. The graph
      is no longer acyclic, but its reduction ends as it did, unless a vertex leads to the empty name. */
  method ConnectFromBlock(c: ConnectPhase, oc: Origin, d: RuntimeDag, x: Name, root: Vertex)
    requires d.dag.Valid() && c.main.dag.Valid() && d.dag != c.main.dag && oc.blockIndex > 0
    requires x in c.gvar && c.gvar[x] == Info(c.gvar[x].outputVertex) && "" !in c.main.dag.vertices
    modifies c`result, d.dag, c.main.dag
    ensures c.result == old(c.result) && c.main.dag.Valid() && c.main.dag.vertices == old(c.main.dag.vertices)
    ensures forall u, w :: Reaches(c.main.dag.Edges(), u, w) <==> Reaches(old(c.main.dag.Edges()), u, w)
    ensures var vs, es := old(c.main.dag.vertices).Keys, old(c.main.dag.Edges());
            Runnable(vs, ExecInit.Into(es, vs), root) ==>
              forall u, w :: w in vs && u != w ==>
                (Forced(OnVertices(vs, c.main.dag.Edges(), root), u, w) <==> Reaches(es, u, w))
    ensures var vs, es := old(c.main.dag.vertices).Keys, old(c.main.dag.Edges());
            NoCycleBelow(vs, c.main.dag.Edges()) <==>
              NoCycleBelow(vs, es) && forall v :: v in vs ==> !Reaches(es, v, "")
  {
    ghost var vs, es := c.main.dag.vertices.Keys, c.main.dag.Edges();
    c.ConnectName(oc, d, x);
    assert c.main.dag.Edges() == es + {Edge("", "")};
    OuterOrders(vs, es, root);
    LoopBelowIff(vs, es, "");
  }

  lemma LoopBelowIff(vs: set<Vertex>, es: Edges, s: Vertex)
    ensures NoCycleBelow(vs, es + {Edge(s, s)}) <==> NoCycleBelow(vs, es) && forall v :: v in vs ==> !Reaches(es, v, s)
  {
    hide CycleBelow;
    if NoCycleBelow(vs, es + {Edge(s, s)}) { NoCycleInFewer(vs, es + {Edge(s, s)}, es); }
    forall v | v in vs
      ensures CycleBelow(es + {Edge(s, s)}, v) <==> CycleBelow(es, v) || Reaches(es, v, s)
    {
      LoopBelow(es, v, s);
    }
  }

  lemma LoopBelow(es: Edges, v: Vertex, s: Vertex)
    ensures CycleBelow(es + {Edge(s, s)}, v) <==> CycleBelow(es, v) || Reaches(es, v, s)
  {
    var more := es + {Edge(s, s)};
    if Reaches(es, v, s) {
      ReachesMonotone(es, more, v, s);
      assert [s][1..] == [] && Walk(more, s, [s], s);
    }
    if x, p :| p != [] && Reaches(es, v, x) && Walk(es, x, p, x) {
      ReachesMonotone(es, more, v, x);
      WalkMonotone(es, more, x, p, x);
    }
    if x, p :| p != [] && Reaches(more, v, x) && Walk(more, x, p, x) {
      SelfLoopOrdersNothing(es, s, v, x);
      if Reaches(es, x, s) { ReachesTrans(es, v, x, s); } else { WithoutLoop(es, s, x, p, x); }
    }
  }

  /** A walk that never comes to s does not use the edge there. */
  lemma {:induction false} WithoutLoop(es: Edges, s: Vertex, u: Vertex, p: seq<Vertex>, w: Vertex)
    requires Walk(es + {Edge(s, s)}, u, p, w) && !Reaches(es, u, s)
    ensures Walk(es, u, p, w)
    decreases |p|
  {
    ReachesSelf(es, u);
    if p != [] {
      if Reaches(es, p[0], s) { EdgeReaches(es, u, p[0], s); }
      WithoutLoop(es, s, p[0], p[1..], w);
    }
  }

  lemma OuterOrders(vs: set<Vertex>, es: Edges, root: Vertex)
    requires "" !in vs
    ensures var more := es + {Edge("", "")};
            && (forall u, w :: Reaches(more, u, w) <==> Reaches(es, u, w))
            && (Runnable(vs, ExecInit.Into(es, vs), root) ==>
                  forall u, w :: w in vs && u != w ==>
                    (Forced(OnVertices(vs, more, root), u, w) <==> Reaches(es, u, w)))
  {
    hide Runnable, Forced;
    var more := es + {Edge("", "")};
    forall u, w
      ensures Reaches(more, u, w) <==> Reaches(es, u, w)
    {
      SelfLoopOrdersNothing(es, "", u, w);
    }
    var into := ExecInit.Into(es, vs);
    assert ExecInit.Into(more, vs) == into;
    if Runnable(vs, into, root) {
      forall u, w | w in vs && u != w
        ensures Forced(OnVertices(vs, more, root), u, w) <==> Reaches(es, u, w)
      {
        ForcedInto(vs, es, root, u, w);
      }
    }
  }

  lemma ForcedInto(vs: set<Vertex>, es: Edges, root: Vertex, u: Vertex, w: Vertex)
    requires Runnable(vs, ExecInit.Into(es, vs), root) && w in vs && u != w
    ensures Forced(OnVertices(vs, es, root), u, w) <==> Reaches(es, u, w)
  {
    var into := ExecInit.Into(es, vs);
    OrderIff(OnVertices(vs, es, root), u, w);
    if Reaches(into, u, w) { ReachesMonotone(into, es, u, w); }
    if Reaches(es, u, w) { ReachesInto(vs, es, u, w); }
  }

  /** A path to a vertex goes through vertices only. */
  lemma ReachesInto(vs: set<Vertex>, es: Edges, u: Vertex, w: Vertex)
    requires w in vs && forall e :: e in ExecInit.Into(es, vs) ==> e.from in vs
    requires Reaches(es, u, w)
    ensures Reaches(ExecInit.Into(es, vs), u, w)
  {
    var p :| Walk(es, u, p, w);
    WalkInto(vs, es, u, p, w);
  }

  lemma {:induction false} WalkInto(vs: set<Vertex>, es: Edges, u: Vertex, p: seq<Vertex>, w: Vertex)
    requires w in vs && forall e :: e in ExecInit.Into(es, vs) ==> e.from in vs
    requires Walk(es, u, p, w)
    ensures Walk(ExecInit.Into(es, vs), u, p, w) && u in vs
    decreases |p|
  {
    if p != [] {
      WalkInto(vs, es, p[0], p[1..], w);
      assert Edge(u, p[0]) in ExecInit.Into(es, vs);
    }
  }

  // ----- a compiled graph in the executor -----

  /** All edges start inside the pipeline: no reference and no dependsOn leads out of it. Nothing checks
      this. */
  ghost predicate StaysIn(root: Vertex, g: Table, fns: Functions) {
    forall e :: e in AllEdges(root, g, fns) ==> e.from in {root} + fns.Keys
  }

  lemma EdgeTargets(root: Vertex, g: Table, fns: Functions, e: Edge)
    requires e in AllEdges(root, g, fns)
    ensures e.to in fns
  {
    var v :| v in fns && e in EdgesOf(root, g, v, fns[v]);
  }

  /** The executor can set up its channels exactly when the pipeline stays inside itself: otherwise it
      fails on a dependency that is no vertex. */
  method StartExecutor(d: RuntimeDag, root: Vertex, ghost g: Table, ghost fns: Functions, x: ExecInit.Exec)
    returns (r: Outcome)
    requires Ready(d, root, g, fns) && x.made == 0
    modifies x
    ensures r.Pass? <==> StaysIn(root, g, fns)
  {
    ghost var es, vs, out := AllEdges(root, g, fns), d.dag.vertices.Keys, d.dag.Edges();
    assert vs == {root} + fns.Keys;
    hide AllEdges;
    IntoIff(root, g, fns, out);
    r := x.Init(d.dag);
  }

  lemma IntoIff(root: Vertex, g: Table, fns: Functions, out: Edges)
    requires exists run :: Run({root} + fns.Keys, AllEdges(root, g, fns), run, out)
    ensures StaysIn(root, g, fns) <==>
            forall e :: e in ExecInit.Into(out, {root} + fns.Keys) ==> e.from in {root} + fns.Keys
  {
    hide AllEdges;
    var es, vs := AllEdges(root, g, fns), {root} + fns.Keys;
    var run :| Run(vs, es, run, out);
    RunShrinks(vs, es, run, out);
    if e :| e in es && e.from !in vs {
      EdgeTargets(root, g, fns, e);
      forall u
        ensures u !in Deps(es, e.from)
      {
        DepsDowns(es, u, e.from);
        if Edge(u, e.from) in es { EdgeTargets(root, g, fns, Edge(u, e.from)); }
      }
      RunKeepsForeign(vs, es, run, out, e);
      assert e in ExecInit.Into(out, vs);
    }
  }

  /** With a source for every function the root leads everywhere. */
  lemma {:induction false} RootReaches(root: Vertex, vs: set<Vertex>, es: Edges, v: Vertex)
    requires Acyclic(es) && v in vs && forall e :: e in es ==> e.from in vs
    requires forall w :: w in vs && w != root ==> Deps(es, w) != {}
    ensures Reaches(es, root, v)
    decreases Ancestry(es, v)
  {
    if v == root {
      ReachesSelf(es, root);
    } else {
      var u :| u in Deps(es, v);
      DepsDowns(es, u, v);
      assert Edge(u, v).from in vs;
      ReachShrinks(es, u, v);
      RootReaches(root, vs, es, u);
      ReachesEdge(es, root, u, v);
    }
  }

  /** What the author of a pipeline has to see to. */
  ghost predicate WellConnected(root: Vertex, g: Table, fns: Functions) {
    && root !in fns && StaysIn(root, g, fns) && Acyclic(AllEdges(root, g, fns))
    && forall v :: v in fns ==> Deps(AllEdges(root, g, fns), v) != {}
  }

  lemma CompiledIsRunnable(root: Vertex, g: Table, fns: Functions)
    requires WellConnected(root, g, fns)
    ensures Runnable({root} + fns.Keys, AllEdges(root, g, fns), root)
  {
    hide AllEdges, Acyclic;
    var es, vs := AllEdges(root, g, fns), {root} + fns.Keys;
    forall e | e in es
      ensures e.from in vs && e.to in vs
    {
      EdgeTargets(root, g, fns, e);
    }
    forall v | v in vs
      ensures Reaches(es, root, v)
    {
      RootReaches(root, vs, es, v);
    }
    if u :| u in Deps(es, root) {
      DepsDowns(es, u, root);
      EdgeTargets(root, g, fns, Edge(u, root));
    }
  }

  /** A well-connected pipeline, compiled and reduced, can deadlock exactly where a tangle is left, and so
      nowhere with one fork. */
  lemma CompiledRuns(root: Vertex, g: Table, fns: Functions, run: seq<Reduction.Stage>, out: Edges)
    requires WellConnected(root, g, fns) && Run({root} + fns.Keys, AllEdges(root, g, fns), run, out)
    ensures CanDeadlock(Config({root} + fns.Keys, out, root, true)) <==> exists to, dep :: Tangle(out, to, dep)
    ensures AtMostOneFork(out) ==> !CanDeadlock(Config({root} + fns.Keys, out, root, true))
  {
    hide AllEdges, Acyclic, AtMostOneFork, Rooted, Tangle, CanDeadlock;
    var vs, es := {root} + fns.Keys, AllEdges(root, g, fns);
    CompiledIsRunnable(root, g, fns);
    assert Acyclic(es) by { RunnableAcyclic(vs, es, root); }
    RunReduces(vs, es, run, out);
    ReducedIsFit(vs, es, root, out);
    DeadlockIff(Config(vs, out, root, true));
    if AtMostOneFork(out) { ReducedDeadlockFree(vs, es, root, out); }
  }

  /** That is with an atomic check. As the executor stands, it can deadlock exactly where two dependencies
      are left to some function. */
  lemma CompiledRaces(root: Vertex, g: Table, fns: Functions, run: seq<Reduction.Stage>, out: Edges)
    requires WellConnected(root, g, fns) && Run({root} + fns.Keys, AllEdges(root, g, fns), run, out)
    ensures CanDeadlock(Config({root} + fns.Keys, out, root, false)) <==> exists w :: w in fns && FanIn(out, w)
  {
    hide AllEdges, Acyclic, Rooted, CanDeadlock;
    var vs, es := {root} + fns.Keys, AllEdges(root, g, fns);
    CompiledIsRunnable(root, g, fns);
    assert Acyclic(es) by { RunnableAcyclic(vs, es, root); }
    RunReduces(vs, es, run, out);
    ReducedRaces(vs, es, root, out);
    if w :| FanIn(out, w) {
      var u :| Edge(u, w) in out;
      EdgeTargets(root, g, fns, Edge(u, w));
    }
  }

  // ----- the data of a compiled graph -----

  /** The program reads the recorded references, and its functions output what the table says; the data
      of the resource are there from the start. */
  ghost predicate Programs(p: ExecData.Program, root: Vertex, g: Table, fns: Functions) {
    && p.root == root && p.init.Keys == {root}
    && (forall v :: v in fns ==> ExecData.RefsOf(p, v) == NamesIn(Texts(fns[v])))
    && ExecData.RefsOf(p, root) == {}
    && (forall n :: n in p.producer <==> n in g && n != root)
    && (forall n :: n in p.producer ==> p.producer[n] == g[n].outputVertex)
    && (forall v, i, n :: n in p.fn(v, i).outs ==> n in p.producer && p.producer[n] == v)
  }

  /** A local variable can have the name of a variable of the table. The texts of v then refer to the
      local one, so that no edge comes from the vertex that declares the other; but the name is recorded,
      and v reads what that vertex outputs. No harm is done where the two vertices are joined anyway. */
  ghost predicate ShadowsJoined(p: ExecData.Program, root: Vertex, g: Table, fns: Functions) {
    forall v, x :: v in fns && x in fns[v].vars && x in ExecData.Reads(p, v) && x in g && x != root ==>
      ExecData.Joined(Config({root} + fns.Keys, AllEdges(root, g, fns), root, true), g[x].outputVertex, v)
  }

  /** The unreduced graph, and any that reaches the same, joins every producer to its readers exactly when
      it does so for the shadowed names. */
  lemma CompiledIsProduced(root: Vertex, g: Table, fns: Functions, p: ExecData.Program, es: Edges)
    requires WellConnected(root, g, fns) && Programs(p, root, g, fns)
    requires SameReach(AllEdges(root, g, fns), es)
    ensures ExecData.WellProduced(Config({root} + fns.Keys, es, root, true), p) <==> ShadowsJoined(p, root, g, fns)
  {
    hide Acyclic, AllEdges, WellConnected;
    var all, c := AllEdges(root, g, fns), Config({root} + fns.Keys, es, root, true);
    assert forall u, v :: ExecData.Joined(c, u, v) <==> ExecData.Joined(Config(c.vs, all, root, true), u, v);
    if ShadowsJoined(p, root, g, fns) {
      forall v, n | v in c.vs && n in ExecData.Reads(p, v) && n in p.producer
        ensures ExecData.Joined(c, p.producer[n], v)
      {
        assert v in fns;
        if n !in fns[v].vars { ReadHasEdge(root, g, fns, v, n); }
      }
    }
    if ExecData.WellProduced(c, p) {
      forall v, x | v in fns && x in fns[v].vars && x in ExecData.Reads(p, v) && x in g && x != root
        ensures ExecData.Joined(c, g[x].outputVertex, v)
      {
        assert v in c.vs && x in p.producer;
      }
    }
  }

  /** What v finds for a recorded name x in the compiled and reduced pipeline, where the vertex u of x
      always outputs it: a value in some run exactly when u is of this pipeline and v does not lead to u,
      none in some run exactly when u is no proper ancestor, so either exactly when the two are not joined.
      This holds of shadowed names, and of those whose order the reduction has lost. */
  lemma CompiledReadIff(root: Vertex, g: Table, fns: Functions, p: ExecData.Program, run: seq<Reduction.Stage>,
                        out: Edges, atomic: bool, v: Vertex, x: Name)
    requires WellConnected(root, g, fns) && Programs(p, root, g, fns)
    requires Run({root} + fns.Keys, AllEdges(root, g, fns), run, out)
    requires v in fns && x in ExecData.Reads(p, v) && x in g && Succeeds(p) && Sole(p, g[x].outputVertex, x)
    ensures var c, u := Config({root} + fns.Keys, out, root, atomic), g[x].outputVertex;
            && (CanRead(c, p, v, x, true) <==> u in c.vs && !Reaches(out, v, u))
            && (CanRead(c, p, v, x, false) <==> !ExecData.Above(c, u, v))
            && (CanRead(c, p, v, x, true) && CanRead(c, p, v, x, false) <==> !ExecData.Joined(c, u, v))
  {
    hide AllEdges, Acyclic, Programs, Rooted, Succeeds, Sole, CanRead, ExecData.Reads, ExecData.Joined, ExecData.Above;
    var vs, es, u := {root} + fns.Keys, AllEdges(root, g, fns), g[x].outputVertex;
    CompiledIsRunnable(root, g, fns);
    RunReduces(vs, es, run, out);
    ReducedIsFit(vs, es, root, out);
    ReadIff(Config(vs, out, root, atomic), p, u, v, x);
  }

  lemma ReadHasEdge(root: Vertex, g: Table, fns: Functions, v: Vertex, n: Name)
    requires WellConnected(root, g, fns) && v in fns && n in NamesIn(Texts(fns[v])) && n !in fns[v].vars && n in g
    ensures Reaches(AllEdges(root, g, fns), g[n].outputVertex, v)
    ensures g[n].outputVertex != v && g[n].outputVertex in {root} + fns.Keys
  {
    var e := Edge(g[n].outputVertex, v);
    assert e in RefEdges(g, Wanted(fns[v]), v);
    assert e in EdgesOf(root, g, v, fns[v]);
    assert e in AllEdges(root, g, fns);
    EdgeWalk(AllEdges(root, g, fns), e.from, e.to);
    NoWayBack(AllEdges(root, g, fns), e.from, e.to);
  }

  /** From the configuration to its outcome: where the reduction cannot lose an order and shadowed names
      are joined, all complete runs of the compiled and reduced pipeline leave the same outputs. */
  lemma CompiledIsDeterministic(root: Vertex, g: Table, fns: Functions, p: ExecData.Program,
                                run: seq<Reduction.Stage>, out: Edges, atomic: bool,
                                s: ExecData.DState, t: ExecData.DState)
    requires WellConnected(root, g, fns) && Programs(p, root, g, fns)
    requires ShadowsJoined(p, root, g, fns) && LevelParents({root} + fns.Keys, AllEdges(root, g, fns))
    requires Run({root} + fns.Keys, AllEdges(root, g, fns), run, out)
    requires var c := Config({root} + fns.Keys, out, root, atomic);
             && ExecData.DReachable(c, p, s) && ExecData.Complete(c, s)
             && ExecData.DReachable(c, p, t) && ExecData.Complete(c, t)
    ensures s.out == t.out
  {
    hide AllEdges, Acyclic, WellConnected, Programs, ShadowsJoined, LevelParents, Rooted;
    var vs, es := {root} + fns.Keys, AllEdges(root, g, fns);
    CompiledIsRunnable(root, g, fns);
    assert Acyclic(es) by { RunnableAcyclic(vs, es, root); }
    LevelRun(vs, vs, es, run, out);
    RunReduces(vs, es, run, out);
    ReducedIsFit(vs, es, root, out);
    CompiledIsProduced(root, g, fns, p, out);
    AnyAtomic(vs, out, root, atomic, p);
    ExecData.ScheduleIndependent(Config(vs, out, root, atomic), p, s, t);
  }

  lemma AnyAtomic(vs: set<Vertex>, es: Edges, root: Vertex, atomic: bool, p: ExecData.Program)
    requires WellFormed(Config(vs, es, root, true)) && ExecData.WellProduced(Config(vs, es, root, true), p)
    ensures WellFormed(Config(vs, es, root, atomic)) && ExecData.WellProduced(Config(vs, es, root, atomic), p)
  {
    var c, d := Config(vs, es, root, true), Config(vs, es, root, atomic);
    assert forall u, v :: ExecData.Joined(c, u, v) <==> ExecData.Joined(d, u, v);
  }
}
