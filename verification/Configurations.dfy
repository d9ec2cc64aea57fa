/** What a configuration says, read off field by field, and what becomes of it. */
module Configurations {
  import opened Graphs
  import opened Wrappers
  import opened References
  import opened Pipelines
  import opened Connector
  import opened Resolver
  import opened Compiler
  import opened Compilation
  import ExecData
  import D = ExecDataSchedules

  // ----- functions and their vertices -----

  /** The pipeline has f under the name v, in one of its two sections. */
  ghost predicate Has(p: Option<Pipeline>, v: Vertex, f: Function) {
    p.Some? && ((v in p.value.vars && p.value.vars[v] == f) || (v in p.value.tasks && p.value.tasks[v] == f))
  }

  /** The graph of a pipeline gets the resource as its root, and each function of either section. */
  lemma VerticesIff(root: Vertex, p: Option<Pipeline>, v: Vertex, x: VertexContext)
    requires SectionsApart(p) && root !in Fns(p)
    ensures v in Contexts(root, Fns(p)) && Contexts(root, Fns(p))[v] == x <==>
              (v == root && x == Root) || (x.Fn? && Has(p, v, x.f))
  {}

  // ----- declarations -----

  /** A function with an output section declares what stands there, and any other its own name. */
  ghost predicate Gives(p: Option<Pipeline>, v: Vertex, x: Name) {
    exists f :: Has(p, v, f) && if f.outputs.Some? then x in f.outputs.value else x == v
  }

  lemma GivesIff(p: Option<Pipeline>, v: Vertex, x: Name)
    requires SectionsApart(p)
    ensures Declares(Fns(p), v, x) <==> Gives(p, v, x)
  {
    if Declares(Fns(p), v, x) { assert Has(p, v, Fns(p)[v]); }
    if Gives(p, v, x) {
      var f :| Has(p, v, f) && if f.outputs.Some? then x in f.outputs.value else x == v;
      assert Fns(p)[v] == f;
    }
  }

  /** The table of an accepted configuration has the resource, and every variable under the one vertex that
      gives it, in either pipeline. */
  lemma TableIff(root: Vertex, a: Option<Pipeline>, d: Option<Pipeline>, g: Table, v: Vertex, x: Name)
    requires Distinct(root, a, d) && IsTable(root, a, d, g)
    ensures x in g && g[x].outputVertex == v <==> (v == root && x == root) || Gives(a, v, x) || Gives(d, v, x)
  {
    GivesIff(a, v, x);
    GivesIff(d, v, x);
    if x in g { TableProduces(root, a, d, g, x); }
    if x in g && g[x].outputVertex != v && Produces(root, Fns(a), Fns(d), v, x) {
      OneProducer(root, a, d, v, g[x].outputVertex, x);
    }
    if Produces(root, Fns(a), Fns(d), v, x) { ProducedInTable(root, a, d, g, v, x); }
  }

  lemma ProducedInTable(root: Vertex, a: Option<Pipeline>, d: Option<Pipeline>, g: Table, v: Vertex, x: Name)
    requires IsTable(root, a, d, g) && Produces(root, Fns(a), Fns(d), v, x)
    ensures x in g
  {
    var g0: Table := map[root := Info(root)];
    var mid :| Tabulates(g0, mid, Fns(a)) && Tabulates(mid, g, Fns(d));
    assert root in g0;
  }

  ghost predicate Apart(p: Option<Pipeline>) {
    p.Some? ==> forall v :: !(v in p.value.vars && v in p.value.tasks)
  }

  ghost predicate GivesOnce(p: Option<Pipeline>) {
    forall v, w, x :: Gives(p, v, x) && Gives(p, w, x) ==> v == w
  }

  /** Names are distinct exactly if no function stands in both sections, none has the name of the resource,
      and no variable is that name or is given by two functions, of one pipeline or of both. */
  lemma DistinctIff(root: Vertex, a: Option<Pipeline>, d: Option<Pipeline>)
    ensures Distinct(root, a, d) <==>
              && Apart(a) && Apart(d) && GivesOnce(a) && GivesOnce(d)
              && (forall v, f :: Has(a, v, f) || Has(d, v, f) ==> v != root)
              && (forall v, x :: Gives(a, v, x) || Gives(d, v, x) ==> x != root)
              && (forall v, w, x :: !(Gives(a, v, x) && Gives(d, w, x)))
  {
    assert Apart(a) <==> SectionsApart(a);
    assert Apart(d) <==> SectionsApart(d);
    if Apart(a) && Apart(d) {
      KeysIff(root, a);
      KeysIff(root, d);
      forall v, x
        ensures Declares(Fns(a), v, x) <==> Gives(a, v, x)
        ensures Declares(Fns(d), v, x) <==> Gives(d, v, x)
      {
        GivesIff(a, v, x);
        GivesIff(d, v, x);
      }
      forall x
        ensures x in DeclaredBy(Fns(a)) <==> exists u :: Gives(a, u, x)
      {
        DeclaredByIff(a, x);
      }
    }
  }

  lemma KeysIff(root: Vertex, p: Option<Pipeline>)
    requires SectionsApart(p)
    ensures Fns(p).Keys !! {root} <==> forall v, f :: Has(p, v, f) ==> v != root
  {
    if root in Fns(p) { assert Has(p, root, Fns(p)[root]); }
  }

  // ----- references -----

  /** The text at a place of nested ranges (true) and conditions (false). */
  function TextAt(b: Block, path: seq<bool>): Option<string>
    decreases |path|
  {
    if path == [] then None
    else
      var n := if path[0] then b.range else b.condition;
      if n.None? then None else if |path| == 1 then Some(n.value.text) else TextAt(n.value.inner, path[1..])
  }

  ghost predicate StandsAt(b: Block, path: seq<bool>, t: string) {
    TextAt(b, path) == Some(t)
  }

  lemma {:induction false} TextAtIff(b: Block, t: string)
    ensures t in BlockTexts(b) <==> exists path :: StandsAt(b, path, t)
    decreases b
  {
    NestedIff(b, true, t);
    NestedIff(b, false, t);
    if path :| StandsAt(b, path, t) {
      assert path == [path[0]] + path[1..];
      assert StandsAt(b, [path[0]] + path[1..], t);
    }
  }

  /** The part of a block that begins with a range, or with a condition. */
  lemma {:induction false} NestedIff(b: Block, first: bool, t: string)
    ensures t in NestedTexts(if first then b.range else b.condition) <==>
              exists rest :: StandsAt(b, [first] + rest, t)
    decreases b, 0
  {
    var n := if first then b.range else b.condition;
    forall rest
      ensures StandsAt(b, [first] + rest, t) <==>
                n.Some? && if rest == [] then n.value.text == t else StandsAt(n.value.inner, rest, t)
    {
      assert ([first] + rest)[0] == first && ([first] + rest)[1..] == rest;
    }
    if n.Some? {
      TextAtIff(n.value.inner, t);
      if t == n.value.text { assert StandsAt(b, [first] + [], t); }
      if path :| StandsAt(n.value.inner, path, t) { assert StandsAt(b, [first] + path, t); }
    }
  }

  /** f has the text t somewhere: in a local variable, its range or condition, or its input. */
  ghost predicate Says(f: Function, t: string) {
    || (exists y :: y in f.vars && f.vars[y] == t)
    || (exists path :: StandsAt(f.block, path, t))
    || (f.input.Some? && InputSays(f.input.value, t))
  }

  ghost predicate InputSays(i: Input, t: string) {
    || (t != "" && (t == i.key || t == i.value || t == i.expression))
    || (exists y :: y in i.generic && i.generic[y] == t)
    || (i.labels.Some? && exists y :: y in i.labels.value && (y == t || i.labels.value[y] == t))
  }

  lemma SaysIff(f: Function, t: string)
    ensures t in Texts(f) <==> Says(f, t)
  {
    TextAtIff(f.block, t);
    FunctionTexts(f);
    hide Texts, BlockTexts, InputTexts, InputSays, StandsAt;
    assert t in f.vars.Values <==> exists y :: y in f.vars && f.vars[y] == t;
    if f.input.Some? { InputSaysIff(f.input.value, t); }
  }

  lemma InputSaysIff(i: Input, t: string)
    ensures t in InputTexts(i) <==> InputSays(i, t)
  {
    assert t in i.generic.Values <==> exists y :: y in i.generic && i.generic[y] == t;
    if i.labels.Some? {
      assert t in i.labels.value.Values <==> exists y :: y in i.labels.value && i.labels.value[y] == t;
    }
  }

  /** f mentions the variable x: one of its texts holds `$x`, and x is not one of the three names of a range
      and does not begin with an underscore. */
  ghost predicate Mentions(f: Function, x: Name) {
    && x != "VALUE" && x != "KEY" && x != "INDEX" && x != "" && x[0] != '_'
    && exists t :: Says(f, t) && x in Refs(t)
  }

  /** f asks for it unless it is one of its own variables. */
  ghost predicate AsksFor(f: Function, x: Name) {
    Mentions(f, x) && x !in f.vars
  }

  lemma MentionsIff(f: Function, x: Name)
    ensures x in NamesIn(Texts(f)) <==> Mentions(f, x)
  {
    hide Texts, Says, Refs;
    assert Regular(x) <==> x != "VALUE" && x != "KEY" && x != "INDEX" && x != "" && x[0] != '_';
    if x in NamesIn(Texts(f)) {
      var t :| t in Texts(f) && x in Refs(t) && Regular(x);
      SaysIff(f, t);
    }
    if Mentions(f, x) {
      var t :| Says(f, t) && x in Refs(t);
      SaysIff(f, t);
    }
  }

  lemma AsksIff(f: Function, x: Name)
    ensures x in Wanted(f) <==> AsksFor(f, x)
  {
    hide NamesIn, Texts, Mentions;
    MentionsIff(f, x);
  }

  /** The vertex of a function lists exactly the variables that the function mentions, its own among them;
      these are what its execution reads. */
  lemma ListedIff(r: RuntimeDag, root: Vertex, g: Table, p: Option<Pipeline>, v: Vertex, f: Function, x: Name)
    requires SectionsApart(p) && Built(r, root, g, Fns(p)) && Has(p, v, f)
    ensures x in r.ReferencesOf(v) <==> Mentions(f, x)
  {
    hide NamesIn, Texts, Mentions, AllEdges;
    MentionsIff(f, x);
    assert v in Fns(p) && Fns(p)[v] == f;
  }

  lemma ReadsIff(q: ExecData.Program, root: Vertex, g: Table, p: Option<Pipeline>, v: Vertex, f: Function, x: Name)
    requires SectionsApart(p) && Programs(q, root, g, Fns(p)) && Has(p, v, f)
    ensures v in q.refs && x in q.refs[v] <==> Mentions(f, x)
  {
    hide NamesIn, Texts, Mentions;
    MentionsIff(f, x);
    assert v in Fns(p) && Fns(p)[v] == f;
  }

  /** The resolve phase, had it been given the functions, would find exactly a variable that is asked for and
      not known, and a dependsOn that is no vertex. */
  lemma ResolvesIff(known: set<Name>, vertices: set<Vertex>, f: Function)
    ensures Resolvable(known, vertices, f) <==>
              (forall x :: AsksFor(f, x) ==> x in known) && forall u :: u in f.dependsOn ==> u in vertices
  {
    hide Wanted, AsksFor;
    forall x
      ensures x in Wanted(f) <==> AsksFor(f, x)
    {
      AsksIff(f, x);
    }
  }

  // ----- edges -----

  /** In the graph of a pipeline an edge leads from u to v for exactly three reasons: v takes the resource as
      input and u is its vertex; v names u under dependsOn; or v asks for a variable that u gives. */
  lemma EdgeIff(root: Vertex, a: Option<Pipeline>, d: Option<Pipeline>, g: Table, p: Option<Pipeline>, u: Vertex,
                v: Vertex, f: Function)
    requires Distinct(root, a, d) && IsTable(root, a, d, g) && (p == a || p == d) && Has(p, v, f)
    ensures Edge(u, v) in AllEdges(root, g, Fns(p)) <==>
              || (f.input.Some? && f.input.value.hasResource && u == root)
              || u in f.dependsOn
              || exists x :: AsksFor(f, x) && ((u == root && x == root) || Gives(a, u, x) || Gives(d, u, x))
  {
    hide Distinct, IsTable, AsksFor, Gives, Wanted;
    assert v in Fns(p) && Fns(p)[v] == f by { HasFn(root, a, d, p, v, f); }
    EdgeOfIff(root, g, Fns(p), u, v);
    RefEdgeIff(root, g, f, u, v);
    forall x
      ensures x in Wanted(f) && x in g && g[x].outputVertex == u <==>
                AsksFor(f, x) && ((u == root && x == root) || Gives(a, u, x) || Gives(d, u, x))
    {
      AsksIff(f, x);
      TableIff(root, a, d, g, u, x);
    }
  }

  lemma HasFn(root: Vertex, a: Option<Pipeline>, d: Option<Pipeline>, p: Option<Pipeline>, v: Vertex, f: Function)
    requires Distinct(root, a, d) && (p == a || p == d) && Has(p, v, f)
    ensures v in Fns(p) && Fns(p)[v] == f
  {}

  lemma EdgeOfIff(root: Vertex, g: Table, fns: Functions, u: Vertex, v: Vertex)
    requires v in fns
    ensures Edge(u, v) in AllEdges(root, g, fns) <==> Edge(u, v) in EdgesOf(root, g, v, fns[v])
  {
    hide RefEdges, Wanted;
    if w :| w in fns && Edge(u, v) in EdgesOf(root, g, w, fns[w]) {
      assert w == v by { EdgesOfInto(root, g, w, fns[w], Edge(u, v)); }
    }
  }

  lemma EdgesOfInto(root: Vertex, g: Table, v: Vertex, f: Function, e: Edge)
    requires e in EdgesOf(root, g, v, f)
    ensures e.to == v
  {
    hide Wanted;
  }

  lemma RefEdgeIff(root: Vertex, g: Table, f: Function, u: Vertex, v: Vertex)
    ensures Edge(u, v) in EdgesOf(root, g, v, f) <==>
              || (f.input.Some? && f.input.value.hasResource && u == root)
              || u in f.dependsOn
              || exists x :: x in Wanted(f) && x in g && g[x].outputVertex == u
  {
    hide Wanted;
    if x :| x in Wanted(f) && x in g && g[x].outputVertex == u {
      assert Edge(g[x].outputVertex, v) in RefEdges(g, Wanted(f), v);
    }
  }

  /** A configuration is accepted exactly if no name is declared twice and every variable that is asked for
      is the resource or is given by a function of either pipeline. */
  lemma AcceptedIff(root: Vertex, a: Option<Pipeline>, d: Option<Pipeline>)
    requires Distinct(root, a, d)
    ensures FitsConfig(root, a, d) <==>
              forall v, f, x :: (Has(a, v, f) || Has(d, v, f)) && AsksFor(f, x) ==>
                x == root || exists u :: Gives(a, u, x) || Gives(d, u, x)
  {
    hide Distinct, AsksFor, Gives, Wanted;
    forall x
      ensures x in Known(root, a, d) <==> x == root || exists u :: Gives(a, u, x) || Gives(d, u, x)
    {
      KnownIff(root, a, d, x);
    }
    forall f, x
      ensures x in Wanted(f) <==> AsksFor(f, x)
    {
      AsksIff(f, x);
    }
    forall v, f
      ensures Has(a, v, f) <==> v in Fns(a) && Fns(a)[v] == f
      ensures Has(d, v, f) <==> v in Fns(d) && Fns(d)[v] == f
    {
      HasIff(root, a, d, v, f);
    }
    hide Has, Fns, Known;
    if forall v, f, x :: (Has(a, v, f) || Has(d, v, f)) && AsksFor(f, x) ==>
         x == root || exists u :: Gives(a, u, x) || Gives(d, u, x) {
      forall v | v in Fns(a)
        ensures Wanted(Fns(a)[v]) <= Known(root, a, d)
      {
        assert Has(a, v, Fns(a)[v]);
      }
      forall v | v in Fns(d)
        ensures Wanted(Fns(d)[v]) <= Known(root, a, d)
      {
        assert Has(d, v, Fns(d)[v]);
      }
    }
  }

  lemma HasIff(root: Vertex, a: Option<Pipeline>, d: Option<Pipeline>, v: Vertex, f: Function)
    requires Distinct(root, a, d)
    ensures Has(a, v, f) <==> v in Fns(a) && Fns(a)[v] == f
    ensures Has(d, v, f) <==> v in Fns(d) && Fns(d)[v] == f
  {}

  lemma KnownIff(root: Vertex, a: Option<Pipeline>, d: Option<Pipeline>, x: Name)
    requires Distinct(root, a, d)
    ensures x in Known(root, a, d) <==> x == root || exists u :: Gives(a, u, x) || Gives(d, u, x)
  {
    DeclaredByIff(a, x);
    DeclaredByIff(d, x);
  }

  lemma DeclaredByIff(p: Option<Pipeline>, x: Name)
    requires SectionsApart(p)
    ensures x in DeclaredBy(Fns(p)) <==> exists u :: Gives(p, u, x)
  {
    if x in DeclaredBy(Fns(p)) {
      var u :| u in Fns(p) && x in Declared(u, Fns(p)[u]);
      GivesIff(p, u, x);
    }
    if u :| Gives(p, u, x) { GivesIff(p, u, x); }
  }

  // ----- a configuration with outputs -----

  /** Of two functions one outputs x and the other refers to it: the configuration is accepted, and the
      graph has the edge between them. */
  lemma OutputsConnect(g: Table) returns (a: Option<Pipeline>)
    ensures AllNamed(Fns(a)) && FitsConfig("r", a, EmptyPipeline)
    ensures Has(a, "v", Writer("x")) && Has(a, "w", Reader("x"))
    ensures IsTable("r", a, EmptyPipeline, g) ==> Edge("v", "w") in AllEdges("r", g, Fns(a))
  {
    a := Some(Pipeline(map["v" := Writer("x")], map["w" := Reader("x")]));
    hide Wanted, FitsConfig, AllEdges, IsTable, AllNamed;
    var fns := OutputsFit(a);
    if IsTable("r", a, EmptyPipeline, g) {
      DependencyComplete("r", a, EmptyPipeline, g, fns, "w", "x");
      assert Declares(fns, "v", "x");
    }
  }

  lemma OutputsFit(a: Option<Pipeline>) returns (fns: Functions)
    requires a == Some(Pipeline(map["v" := Writer("x")], map["w" := Reader("x")]))
    ensures Fns(a) == fns == map["v" := Writer("x"), "w" := Reader("x")]
    ensures AllNamed(fns) && FitsConfig("r", a, EmptyPipeline) && Wanted(fns["w"]) == {"x"} && Declares(fns, "v", "x")
  {
    hide Refs, Texts, TextsNamed;
    fns := map["v" := Writer("x"), "w" := Reader("x")];
    ShortNames();
    ReaderWants("x");
    WriterWants("x");
    assert Fns(a) == fns && Fns(EmptyPipeline) == map[];
    hide Wanted;
    assert forall y :: y in DeclaredBy(fns) <==> y in {"x", "w"} by {
      assert "v" in fns && "w" in fns;
      assert "x" in Declared("v", fns["v"]) && "w" in Declared("w", fns["w"]);
    }
    assert DeclaredBy(map[]) == {};
  }

  /** A function that takes the resource and outputs one variable. */
  function Writer(x: Name): Function {
    Function(map[], Block(None, None), Some(Input(true, "", "", "", map[], None)), Some({x}), [])
  }

  lemma WriterWants(x: Name)
    ensures Wanted(Writer(x)) == {} && TextsNamed(Writer(x)) && forall v :: Declared(v, Writer(x)) == {x}
  {
    assert Texts(Writer(x)) == {};
  }

  lemma {:induction false} RanksGrow(es: Edges, rank: map<Vertex, nat>, u: Vertex, p: seq<Vertex>, w: Vertex)
    requires forall e :: e in es ==> e.from in rank && e.to in rank && rank[e.from] < rank[e.to]
    requires Walk(es, u, p, w) && p != []
    ensures u in rank && w in rank && rank[u] < rank[w]
    decreases |p|
  {
    var e := Edge(u, p[0]);
    assert e in es;
    if |p| > 1 { RanksGrow(es, rank, p[0], p[1..], w); }
  }

  const TwoEdges: Edges := {Edge("r", "v"), Edge("v", "w")}

  lemma TwoAcyclic()
    ensures Acyclic(TwoEdges)
  {
    forall u, p | Walk(TwoEdges, u, p, u)
      ensures p == []
    {
      if p != [] { RanksGrow(TwoEdges, map["r" := 0, "v" := 1, "w" := 2], u, p, u); }
    }
  }

  lemma OutputsEdges(a: Option<Pipeline>, g: Table)
    requires a == Some(Pipeline(map["v" := Writer("x")], map["w" := Reader("x")]))
    requires IsTable("r", a, EmptyPipeline, g)
    ensures AllEdges("r", g, Fns(a)) == TwoEdges
  {
    hide AllEdges, IsTable, Fns;
    forall e
      ensures e in AllEdges("r", g, Fns(a)) <==> e in TwoEdges
    {
      OutputsEdge(a, g, e.from, e.to);
      assert e == Edge(e.from, e.to);
    }
  }

  /** This pipeline has all that the theorems about compiled pipelines ask of its author. */
  lemma OutputsWellConnected(a: Option<Pipeline>, g: Table)
    requires a == Some(Pipeline(map["v" := Writer("x")], map["w" := Reader("x")]))
    requires IsTable("r", a, EmptyPipeline, g)
    ensures WellConnected("r", g, Fns(a)) && AllEdges("r", g, Fns(a)) == {Edge("r", "v"), Edge("v", "w")}
  {
    hide AllEdges, IsTable, Acyclic;
    var fns := OutputsFit(a);
    OutputsEdges(a, g);
    TwoAcyclic();
    DepsDowns(TwoEdges, "r", "v");
    DepsDowns(TwoEdges, "v", "w");
  }

  lemma OutputsEdge(a: Option<Pipeline>, g: Table, u: Vertex, w: Vertex)
    requires a == Some(Pipeline(map["v" := Writer("x")], map["w" := Reader("x")]))
    requires IsTable("r", a, EmptyPipeline, g)
    ensures Edge(u, w) in AllEdges("r", g, Fns(a)) <==> Edge(u, w) in {Edge("r", "v"), Edge("v", "w")}
  {
    hide Wanted, AllEdges, IsTable, Texts;
    var fns := OutputsFit(a);
    assert Wanted(fns["v"]) == {} by { WriterWants("x"); }
    if Edge(u, w) in AllEdges("r", g, fns) { EdgeTargets("r", g, fns, Edge(u, w)); }
    if w in fns {
      EdgeOfIff("r", g, fns, u, w);
      RefEdgeIff("r", g, fns[w], u, w);
      TableIff("r", a, EmptyPipeline, g, "v", "x");
      assert Has(a, "v", Writer("x"));
      assert Gives(a, "v", "x");
    }
  }

  // ----- programs of a configuration -----

  /** Whatever the functions output, as long as each outputs variables of its own, there is a program. */
  lemma SomeProgram(root: Vertex, g: Table, fns: Functions, value: ExecData.Value,
                    fn: (Vertex, ExecData.Input) -> ExecData.FnResult)
    returns (p: ExecData.Program)
    requires forall v, i, n :: n in fn(v, i).outs ==> n in g && n != root && g[n].outputVertex == v
    requires root !in fns
    ensures Programs(p, root, g, fns) && p.fn == fn && p.kind == map[] && p.init == map[root := value]
  {
    p := ExecData.Program(root, map[root := value], map[], map v | v in fns :: NamesIn(Texts(fns[v])),
                          map n | n in g && n != root :: g[n].outputVertex, fn);
  }
}
