/** The phases that turn the two pipelines of a For resource into two dependency graphs over one table of
    variables. */
module Compiler {
  import opened Graphs
  import opened DagStore
  import opened Reduction
  import opened DepthFirst
  import opened Wrappers
  import opened References
  import opened Pipelines
  import opened Connector
  import opened Resolver

  // ----- what a configuration must be like -----

  /** The functions of a pipeline; its vars are walked before its tasks. */
  function Fns(p: Option<Pipeline>): Functions {
    match p
    case None => map[]
    case Some(q) => q.vars + q.tasks
  }

  predicate SectionsApart(p: Option<Pipeline>) {
    p.Some? ==> p.value.vars.Keys !! p.value.tasks.Keys
  }

  ghost function DeclaredBy(fns: Functions): set<Name> {
    set v, x | v in fns && x in Declared(v, fns[v]) :: x
  }

  /** The variables of both pipelines; the resource is a variable of its own name. */
  ghost function Known(root: Vertex, a: Option<Pipeline>, d: Option<Pipeline>): set<Name> {
    {root} + DeclaredBy(Fns(a)) + DeclaredBy(Fns(d))
  }

  /** No name is declared twice and no vertex is added twice. */
  ghost predicate Distinct(root: Vertex, a: Option<Pipeline>, d: Option<Pipeline>) {
    && SectionsApart(a) && SectionsApart(d)
    && Fresh({root}, {root}, Fns(a))
    && Fresh({root} + DeclaredBy(Fns(a)), {root}, Fns(d))
  }

  ghost predicate Wants(fns: Functions, known: set<Name>) {
    forall v :: v in fns ==> Wanted(fns[v]) <= known
  }

  /** g is the table of the two pipelines. */
  ghost predicate IsTable(root: Vertex, a: Option<Pipeline>, d: Option<Pipeline>, g: Table) {
    exists mid :: Tabulates(map[root := Info(root)], mid, Fns(a)) && Tabulates(mid, g, Fns(d))
  }

  ghost function AsContexts(fns: Functions): map<Vertex, VertexContext> {
    map v | v in fns :: Fn(fns[v])
  }

  ghost function Contexts(root: Vertex, fns: Functions): map<Vertex, VertexContext> {
    map[root := Root] + AsContexts(fns)
  }

  // ----- populate -----

  class PopulatePhase {
    var gvar: Table
    var result: seq<Name>

    constructor ()
      ensures gvar == map[] && result == []
    {
      gvar, result := map[], [];
    }

    method AddVariable(x: Name, info: VarInfo)
      modifies this
      ensures x in old(gvar) ==> gvar == old(gvar) && result != []
      ensures x !in old(gvar) ==> gvar == old(gvar)[x := info] && result == old(result)
    {
      if x in gvar {
        result := result + [x];
      } else {
        gvar := gvar[x := info];
      }
    }

    method AddVertex(d: RuntimeDag, v: Vertex, c: VertexContext)
      modifies this`result, d.dag`vertices
      ensures v in old(d.dag.vertices) ==> d.dag.vertices == old(d.dag.vertices) && result != []
      ensures v !in old(d.dag.vertices) ==> d.dag.vertices == old(d.dag.vertices)[v := c] && result == old(result)
    {
      var r := d.dag.AddVertex(v, c);
      if r.Fail? {
        result := result + [v];
      }
    }

    /** The variable and the vertex of the resource. */
    method AddGvk(root: Vertex, a: RuntimeDag, d: RuntimeDag)
      requires gvar == map[] && result == [] && a.dag != d.dag && a.dag.vertices == map[] == d.dag.vertices
      modifies this, a.dag`vertices, d.dag`vertices
      ensures gvar == map[root := Info(root)] && result == []
      ensures a.dag.vertices == d.dag.vertices == map[root := Root]
    {
      AddVariable(root, Info(root));
      AddVertex(a, root, Root);
      AddVertex(d, root, Root);
    }

    /** The outputs of a function, in any order. */
    method AddOutputs(v: Vertex, names: set<Name>)
      modifies this
      ensures result == [] <==> old(result) == [] && names !! old(gvar).Keys
      ensures result == [] ==> gvar == old(gvar) + map x | x in names :: Info(v)
    {
      var todo := names;
      while todo != {}
        invariant todo <= names
        invariant result == [] <==> old(result) == [] && names - todo !! old(gvar).Keys
        invariant result == [] ==> gvar == old(gvar) + map x | x in names - todo :: Info(v)
        invariant gvar.Keys >= old(gvar).Keys
        decreases todo
      {
        var x :| x in todo;
        AddVariable(x, Info(v));
        assert names - (todo - {x}) == names - todo + {x};
        todo := todo - {x};
      }
      assert names - {} == names;
    }

    /** A clash of names is an error, and there is no other. */
    method AddFunction(d: RuntimeDag, v: Vertex, f: Function)
      modifies this, d.dag`vertices
      ensures result == [] <==>
              old(result) == [] && Declared(v, f) !! old(gvar).Keys && v !in old(d.dag.vertices)
      ensures result == [] ==> gvar == old(gvar) + map x | x in Declared(v, f) :: Info(v)
      ensures result == [] ==> d.dag.vertices == old(d.dag.vertices)[v := Fn(f)]
    {
      if f.outputs.Some? {
        AddOutputs(v, f.outputs.value);
      } else {
        AddVariable(v, Info(v));
      }
      AddVertex(d, v, Fn(f));
    }

    ghost predicate Added(d: RuntimeDag, g0: Table, v0: map<Vertex, VertexContext>, fns: Functions, failed: bool)
      reads this, d.dag`vertices
    {
      && (result == [] <==> !failed && Fresh(g0.Keys, v0.Keys, fns))
      && (result == [] ==> Tabulates(g0, gvar, fns) && d.dag.vertices == v0 + AsContexts(fns))
    }

    method AddNext(d: RuntimeDag, v: Vertex, f: Function,
                   ghost g0: Table, ghost v0: map<Vertex, VertexContext>, ghost fns: Functions, ghost failed: bool)
      requires v !in fns && Added(d, g0, v0, fns, failed)
      modifies this, d.dag`vertices
      ensures Added(d, g0, v0, fns[v := f], failed)
    {
      hide Fresh, Tabulates;
      if result == [] {
        FreshInsert(g0, gvar, v0.Keys, fns, v, f);
        if Declared(v, f) !! gvar.Keys { TableMore(g0, gvar, fns, v, f); }
      } else if Fresh(g0.Keys, v0.Keys, fns[v := f]) {
        FreshLess(g0.Keys, v0.Keys, fns, v, f);
      }
      AddFunction(d, v, f);
    }

    /** All functions of one section, in any order. */
    method AddSection(d: RuntimeDag, m: Functions)
      modifies this, d.dag`vertices
      ensures Added(d, old(gvar), old(d.dag.vertices), m, old(result) != [])
    {
      ghost var g0, v0, failed := gvar, d.dag.vertices, result != [];
      ghost var fns: Functions := map[];
      var todo := m.Keys;
      while todo != {}
        invariant todo <= m.Keys && fns.Keys == m.Keys - todo && forall v :: v in fns ==> fns[v] == m[v]
        invariant Added(d, g0, v0, fns, failed)
        decreases todo
      {
        hide Added, Fresh, Tabulates;
        var v :| v in todo;
        todo := todo - {v};
        AddNext(d, v, m[v], g0, v0, fns, failed);
        fns := fns[v := m[v]];
      }
      assert fns == m;
    }

    method AddPipeline(d: RuntimeDag, p: Option<Pipeline>)
      modifies this, d.dag`vertices
      ensures result == [] <==>
              old(result) == [] && SectionsApart(p) && Fresh(old(gvar).Keys, old(d.dag.vertices).Keys, Fns(p))
      ensures result == [] ==> Tabulates(old(gvar), gvar, Fns(p))
      ensures result == [] ==> d.dag.vertices == old(d.dag.vertices) + AsContexts(Fns(p))
    {
      if p.Some? {
        var a, b := p.value.vars, p.value.tasks;
        AddSection(d, a);
        ghost var mid, v1, ok := gvar, d.dag.vertices, result == [];
        AddSection(d, b);
        TwoSections(old(gvar), mid, gvar, old(d.dag.vertices), v1, d.dag.vertices, a, b,
                    old(result) != [], ok, result == []);
      }
    }
  }

  lemma TwoSections(g0: Table, mid: Table, g: Table, v0: map<Vertex, VertexContext>, v1: map<Vertex, VertexContext>,
                    v2: map<Vertex, VertexContext>, a: Functions, b: Functions, failed: bool, ok: bool, good: bool)
    requires ok <==> !failed && Fresh(g0.Keys, v0.Keys, a)
    requires ok ==> Tabulates(g0, mid, a) && v1 == v0 + AsContexts(a)
    requires good <==> ok && Fresh(mid.Keys, v1.Keys, b)
    requires good ==> Tabulates(mid, g, b) && v2 == v1 + AsContexts(b)
    ensures good <==> !failed && a.Keys !! b.Keys && Fresh(g0.Keys, v0.Keys, a + b)
    ensures good ==> Tabulates(g0, g, a + b) && v2 == v0 + AsContexts(a + b)
  {
    hide Fresh, Tabulates;
    if ok {
      assert v1.Keys == v0.Keys + a.Keys;
      FreshJoin(g0, mid, v0.Keys, a, b);
    }
    FreshParts(g0.Keys, v0.Keys, a, b);
    if good { TableJoin(g0, mid, g, a, b); }
  }

  // ----- connect -----

  ghost predicate Recorded(d: RuntimeDag, refs: map<Vertex, seq<Name>>, fns: Functions)
    reads d
  {
    forall v, x :: x in d.ReferencesOf(v) <==>
      (v in refs && x in refs[v]) || (v in fns && x in NamesIn(Texts(fns[v])))
  }

  ghost predicate Linked(c: ConnectPhase, root: Vertex, es: Edges, refs: map<Vertex, seq<Name>>, fns: Functions,
                         failed: bool)
    reads c, c.main, c.main.dag
  {
    && c.main.dag.Valid() && c.main.dag.Edges() == es + AllEdges(root, c.gvar, fns)
    && (c.result != [] <==> failed || !AllResolve(c.gvar, fns))
    && Recorded(c.main, refs, fns)
  }

  lemma EdgesInsert(root: Vertex, g: Table, fns: Functions, v: Vertex, f: Function)
    requires v !in fns
    ensures AllEdges(root, g, fns[v := f]) == AllEdges(root, g, fns) + EdgesOf(root, g, v, f)
    ensures AllResolve(g, fns[v := f]) <==> AllResolve(g, fns) && Wanted(f) <= g.Keys
  {
    hide EdgesOf, Wanted;
    var more := fns[v := f];
    assert forall u :: u in fns ==> more[u] == fns[u];
    assert more[v] == f;
    forall e
      ensures e in AllEdges(root, g, more) <==> e in AllEdges(root, g, fns) + EdgesOf(root, g, v, f)
    {
      if u :| u in more && e in EdgesOf(root, g, u, more[u]) {
        assert u == v || u in fns;
      }
      if u :| u in fns && e in EdgesOf(root, g, u, fns[u]) {
        assert u in more && more[u] == fns[u];
      }
      if e in EdgesOf(root, g, v, f) {
        assert v in more && e in EdgesOf(root, g, v, more[v]);
      }
    }
  }

  method ConnectNext(c: ConnectPhase, root: Vertex, v: Vertex, f: Function,
                     ghost es: Edges, ghost refs: map<Vertex, seq<Name>>, ghost fns: Functions, ghost failed: bool)
    returns (ok: bool)
    requires c.BlockFree() && v !in fns && Linked(c, root, es, refs, fns, failed)
    modifies c`result, c.main, c.main.dag
    ensures c.main.dag.vertices == old(c.main.dag.vertices)
    ensures ok <==> TextsNamed(f)
    ensures ok ==> Linked(c, root, es, refs, fns[v := f], failed)
  {
    hide AllEdges, EdgesOf, AllResolve, NamesIn, Texts, TextsNamed;
    EdgesInsert(root, c.gvar, fns, v, f);
    ok := c.ConnectFunction(Origin(root, v, 0, "", f.vars.Keys), f);
  }

  method ConnectSection(c: ConnectPhase, root: Vertex, m: Functions,
                        ghost es: Edges, ghost refs: map<Vertex, seq<Name>>, ghost fns0: Functions, ghost failed: bool)
    returns (ok: bool)
    requires c.BlockFree() && m.Keys !! fns0.Keys && Linked(c, root, es, refs, fns0, failed)
    modifies c`result, c.main, c.main.dag
    ensures c.main.dag.vertices == old(c.main.dag.vertices)
    ensures ok <==> AllNamed(m)
    ensures ok ==> Linked(c, root, es, refs, fns0 + m, failed)
  {
    hide Linked, TextsNamed;
    ghost var fns := fns0;
    var todo := m.Keys;
    while todo != {}
      invariant todo <= m.Keys && fns.Keys == fns0.Keys + (m.Keys - todo)
      invariant forall v :: v in fns ==> fns[v] == (fns0 + m)[v]
      invariant forall v :: v in m && v !in todo ==> TextsNamed(m[v])
      invariant c.main.dag.vertices == old(c.main.dag.vertices)
      invariant Linked(c, root, es, refs, fns, failed)
      decreases todo
    {
      var v :| v in todo;
      todo := todo - {v};
      ok := ConnectNext(c, root, v, m[v], es, refs, fns, failed);
      if !ok {
        return;
      }
      fns := fns[v := m[v]];
    }
    assert fns == fns0 + m;
    return true;
  }

  lemma NothingLinked(c: ConnectPhase, root: Vertex)
    requires c.main.dag.Valid()
    ensures Linked(c, root, c.main.dag.Edges(), c.main.references, map[], c.result != [])
  {}

  lemma NamedParts(a: Functions, b: Functions)
    requires a.Keys !! b.Keys
    ensures AllNamed(a + b) <==> AllNamed(a) && AllNamed(b)
  {
    hide TextsNamed;
    assert forall v :: v in a ==> v in a + b && (a + b)[v] == a[v];
    assert forall v :: v in b ==> v in a + b && (a + b)[v] == b[v];
    assert forall v :: v in a + b ==> v in a || v in b;
  }

  method ConnectPipeline(c: ConnectPhase, root: Vertex, p: Option<Pipeline>, ghost failed: bool) returns (ok: bool)
    requires c.BlockFree() && SectionsApart(p) && c.main.dag.Valid()
    requires failed == (c.result != [])
    modifies c`result, c.main, c.main.dag
    ensures c.main.dag.vertices == old(c.main.dag.vertices)
    ensures ok <==> AllNamed(Fns(p))
    ensures ok ==> Linked(c, root, old(c.main.dag.Edges()), old(c.main.references), Fns(p), failed)
  {
    hide Linked, TextsNamed;
    ghost var es, refs := c.main.dag.Edges(), c.main.references;
    NothingLinked(c, root);
    ok := true;
    if p.Some? {
      var a, b := p.value.vars, p.value.tasks;
      NamedParts(a, b);
      hide AllNamed;
      ok := ConnectSection(c, root, a, es, refs, map[], failed);
      if !ok {
        return;
      }
      assert map[] + a == a;
      ok := ConnectSection(c, root, b, es, refs, a, failed);
    }
  }

  // ----- all phases -----

  /** The compiled graphs of a For resource. */
  class Compiled {
    const applyDag: RuntimeDag
    const deleteDag: RuntimeDag

    constructor ()
      ensures fresh(applyDag) && fresh(applyDag.dag) && fresh(deleteDag) && fresh(deleteDag.dag)
      ensures applyDag != deleteDag && applyDag.dag != deleteDag.dag
      ensures IsEmpty(applyDag) && IsEmpty(deleteDag)
    {
      applyDag := new RuntimeDag();
      deleteDag := new RuntimeDag();
    }
  }

  ghost predicate IsEmpty(d: RuntimeDag)
    reads d, d.dag
  {
    d.dag.Valid() && d.dag.vertices == map[] && d.dag.Edges() == {} && d.references == map[]
  }

  /** The graph of a pipeline before the reduction. */
  ghost predicate Built(d: RuntimeDag, root: Vertex, g: Table, fns: Functions)
    reads d, d.dag
  {
    && d.dag.Valid() && d.dag.vertices == Contexts(root, fns)
    && d.dag.Edges() == AllEdges(root, g, fns) && Recorded(d, map[], fns)
  }

  /** And after it. */
  ghost predicate Ready(d: RuntimeDag, root: Vertex, g: Table, fns: Functions)
    reads d, d.dag
  {
    && d.dag.Valid() && d.dag.vertices == Contexts(root, fns) && Recorded(d, map[], fns)
    && exists run :: Run(d.dag.vertices.Keys, AllEdges(root, g, fns), run, d.dag.Edges())
  }

  ghost predicate FitsConfig(root: Vertex, a: Option<Pipeline>, d: Option<Pipeline>) {
    && Distinct(root, a, d)
    && Wants(Fns(a), Known(root, a, d)) && Wants(Fns(d), Known(root, a, d))
  }

  method Populate(x: Compiled, root: Vertex, a: Option<Pipeline>, d: Option<Pipeline>)
    returns (result: seq<Name>, g: Table)
    requires x.applyDag.dag.vertices == map[] == x.deleteDag.dag.vertices && x.applyDag.dag != x.deleteDag.dag
    modifies x.applyDag.dag`vertices, x.deleteDag.dag`vertices
    ensures result == [] <==> Distinct(root, a, d)
    ensures result == [] ==> IsTable(root, a, d, g)
    ensures result == [] ==> x.applyDag.dag.vertices == Contexts(root, Fns(a))
    ensures result == [] ==> x.deleteDag.dag.vertices == Contexts(root, Fns(d))
  {
    hide Fresh, Tabulates, Distinct, IsTable, SectionsApart, Fns, AsContexts;
    var p := new PopulatePhase();
    p.AddGvk(root, x.applyDag, x.deleteDag);
    ghost var g0 := p.gvar;
    assert g0.Keys == {root} && x.applyDag.dag.vertices.Keys == {root} && x.deleteDag.dag.vertices.Keys == {root};
    p.AddPipeline(x.applyDag, a);
    ghost var mid, ok := p.gvar, p.result == [];
    p.AddPipeline(x.deleteDag, d);
    TwoPipelines(root, a, d, g0, mid, p.gvar, ok, p.result == []);
    return p.result, p.gvar;
  }

  lemma TwoPipelines(root: Vertex, a: Option<Pipeline>, d: Option<Pipeline>, g0: Table, mid: Table, g: Table,
                     ok: bool, good: bool)
    requires g0 == map[root := Info(root)]
    requires ok <==> SectionsApart(a) && Fresh(g0.Keys, {root}, Fns(a))
    requires ok ==> Tabulates(g0, mid, Fns(a))
    requires good <==> ok && SectionsApart(d) && Fresh(mid.Keys, {root}, Fns(d))
    requires good ==> Tabulates(mid, g, Fns(d))
    ensures good <==> Distinct(root, a, d)
    ensures good ==> IsTable(root, a, d, g)
  {
    hide Fresh, Tabulates;
    assert g0.Keys == {root};
    if ok { TableKeys(g0, mid, Fns(a)); }
  }

  method ResolvePipeline(r: ResolvePhase, d: RuntimeDag, p: Option<Pipeline>)
    requires SectionsApart(p) && AllNamed(Fns(p)) && HaveInputs(Fns(p))
    modifies r
    ensures r.result != [] <==> old(r.result) != [] || !AllResolvable(r.gvar.Keys, d.dag.vertices.Keys, Fns(p))
  {
    hide AllNamed, Resolvable;
    if p.Some? {
      var a, b := p.value.vars, p.value.tasks;
      NamedParts(a, b);
      assert forall v :: v in a ==> v in a + b && (a + b)[v] == a[v];
      assert forall v :: v in b ==> v in a + b && (a + b)[v] == b[v];
      ResolveSection(r, d, a);
      ResolveSection(r, d, b);
    }
  }

  /** The walk visits the pipelines of a resource only if it has a callback for the resource. With one
      the phase would find every name that connect misses, and every dependsOn that is no vertex; as the
      code calls it, without one, it finds nothing. */
  method Resolve(x: Compiled, a: Option<Pipeline>, d: Option<Pipeline>, g: Table, gvkObjectFn: bool)
    returns (result: seq<Name>)
    requires SectionsApart(a) && SectionsApart(d)
    requires gvkObjectFn ==> AllNamed(Fns(a)) && AllNamed(Fns(d)) && HaveInputs(Fns(a)) && HaveInputs(Fns(d))
    ensures !gvkObjectFn ==> result == []
    ensures gvkObjectFn ==>
              (result == [] <==>
                 && AllResolvable(g.Keys, x.applyDag.dag.vertices.Keys, Fns(a))
                 && AllResolvable(g.Keys, x.deleteDag.dag.vertices.Keys, Fns(d)))
    ensures gvkObjectFn && result == [] ==> AllResolve(g, Fns(a)) && AllResolve(g, Fns(d))
  {
    var r := new ResolvePhase(g);
    if gvkObjectFn {
      hide AllNamed;
      ResolvePipeline(r, x.applyDag, a);
      ResolvePipeline(r, x.deleteDag, d);
    }
    return r.result;
  }

  /** ok is false where the code indexes an empty name. */
  method Connect(x: Compiled, root: Vertex, a: Option<Pipeline>, d: Option<Pipeline>, g: Table)
    returns (ok: bool, result: seq<Name>)
    requires x.applyDag.dag != x.deleteDag.dag && x.applyDag != x.deleteDag
    requires x.applyDag.dag.Valid() && x.applyDag.dag.Edges() == {} && x.applyDag.references == map[]
    requires x.deleteDag.dag.Valid() && x.deleteDag.dag.Edges() == {} && x.deleteDag.references == map[]
    requires SectionsApart(a) && SectionsApart(d)
    requires forall n :: n in g ==> g[n].blockIndex == 0
    modifies x.applyDag, x.applyDag.dag, x.deleteDag, x.deleteDag.dag
    ensures x.applyDag.dag.vertices == old(x.applyDag.dag.vertices)
    ensures x.deleteDag.dag.vertices == old(x.deleteDag.dag.vertices)
    ensures ok <==> AllNamed(Fns(a)) && AllNamed(Fns(d))
    ensures ok ==> (result == [] <==> AllResolve(g, Fns(a)) && AllResolve(g, Fns(d)))
    ensures ok ==> x.applyDag.dag.Valid() && x.applyDag.dag.Edges() == AllEdges(root, g, Fns(a))
    ensures ok ==> x.deleteDag.dag.Valid() && x.deleteDag.dag.Edges() == AllEdges(root, g, Fns(d))
    ensures ok ==> Recorded(x.applyDag, map[], Fns(a)) && Recorded(x.deleteDag, map[], Fns(d))
  {
    hide AllEdges, AllResolve, Recorded, AllNamed;
    var c := new ConnectPhase(g, x.applyDag);
    result := [];
    ok := ConnectPipeline(c, root, a, false);
    if !ok {
      return;
    }
    c.main := x.deleteDag;
    ok := ConnectPipeline(c, root, d, !AllResolve(g, Fns(a)));
    result := c.result;
  }

  lemma TableIsFlat(root: Vertex, a: Option<Pipeline>, d: Option<Pipeline>, g: Table)
    requires IsTable(root, a, d, g)
    ensures g.Keys == Known(root, a, d)
    ensures forall n :: n in g ==> g[n].blockIndex == 0 && g[n] == Info(g[n].outputVertex)
    ensures AllResolve(g, Fns(a)) <==> Wants(Fns(a), Known(root, a, d))
    ensures AllResolve(g, Fns(d)) <==> Wants(Fns(d), Known(root, a, d))
  {
    hide Tabulates, DeclaredBy, Fns, Wanted;
    var g0: Table := map[root := Info(root)];
    assert g0.Keys == {root};
    var mid :| Tabulates(g0, mid, Fns(a)) && Tabulates(mid, g, Fns(d));
    TableKeys(g0, mid, Fns(a));
    TableKeys(mid, g, Fns(d));
    TableInfos(g0, mid, Fns(a));
    TableInfos(mid, g, Fns(d));
  }

  lemma TableInfos(g0: Table, g: Table, fns: Functions)
    requires Tabulates(g0, g, fns) && forall n :: n in g0 ==> g0[n] == Info(g0[n].outputVertex)
    ensures forall n :: n in g ==> g[n] == Info(g[n].outputVertex)
  {}

  /** No phase looks for cycles; on a cyclic graph the walks of the reduction would not end. */
  ghost predicate NoCycles(root: Vertex, a: Option<Pipeline>, d: Option<Pipeline>) {
    forall g :: IsTable(root, a, d, g) ==> Acyclic(AllEdges(root, g, Fns(a))) && Acyclic(AllEdges(root, g, Fns(d)))
  }

  method Reduce(d: RuntimeDag, root: Vertex, ghost g: Table, ghost fns: Functions)
    requires Built(d, root, g, fns) && Acyclic(AllEdges(root, g, fns))
    modifies d.dag`downEdges, d.dag`upEdges, d.dag`vertexDepth
    ensures Ready(d, root, g, fns)
  {
    hide AllEdges;
    NoCycleInAcyclic(d.dag.vertices.Keys, d.dag.Edges());
    d.dag.TransitiveReduction();
  }

  /** The phases up to the reduction, for every configuration. On an empty name the code indexes out of
      range, which panics says. Otherwise there is no error exactly when no name is declared twice and
      every name that is looked up is declared; then both graphs are built from the table. */
  method Parse(x: Compiled, root: Vertex, a: Option<Pipeline>, d: Option<Pipeline>)
    returns (panics: bool, result: seq<Name>, g: Table)
    requires IsEmpty(x.applyDag) && IsEmpty(x.deleteDag)
    requires x.applyDag.dag != x.deleteDag.dag && x.applyDag != x.deleteDag
    modifies x.applyDag, x.applyDag.dag, x.deleteDag, x.deleteDag.dag
    ensures panics <==> Distinct(root, a, d) && !(AllNamed(Fns(a)) && AllNamed(Fns(d)))
    ensures !panics ==> (result == [] <==> FitsConfig(root, a, d))
    ensures !panics && result == [] ==>
              IsTable(root, a, d, g) && Built(x.applyDag, root, g, Fns(a)) && Built(x.deleteDag, root, g, Fns(d))
  {
    hide AllEdges, AllNamed, Wants, AllResolve, Known, Distinct, IsTable, Recorded, Fns, Contexts;
    panics := false;
    result, g := Populate(x, root, a, d);
    if result != [] {
      return;
    }
    DistinctApart(root, a, d);
    result := Resolve(x, a, d, g, false);
    if result != [] {
      return;
    }
    TableIsFlat(root, a, d, g);
    var ok;
    ok, result := Connect(x, root, a, d, g);
    panics := !ok;
  }

  /** All phases. On a cyclic graph the reduction would not end, so what is accepted must not be cyclic;
      what is rejected may be. */
  method Compile(x: Compiled, root: Vertex, a: Option<Pipeline>, d: Option<Pipeline>)
    returns (panics: bool, result: seq<Name>, g: Table)
    requires IsEmpty(x.applyDag) && IsEmpty(x.deleteDag)
    requires x.applyDag.dag != x.deleteDag.dag && x.applyDag != x.deleteDag
    requires FitsConfig(root, a, d) && AllNamed(Fns(a)) && AllNamed(Fns(d)) ==> NoCycles(root, a, d)
    modifies x.applyDag, x.applyDag.dag, x.deleteDag, x.deleteDag.dag
    ensures panics <==> Distinct(root, a, d) && !(AllNamed(Fns(a)) && AllNamed(Fns(d)))
    ensures !panics ==> (result == [] <==> FitsConfig(root, a, d))
    ensures !panics && result == [] ==>
              IsTable(root, a, d, g) && Ready(x.applyDag, root, g, Fns(a)) && Ready(x.deleteDag, root, g, Fns(d))
  {
    hide AllEdges, AllNamed, Wants, Known, Distinct, IsTable, Recorded, Fns, Contexts, Acyclic;
    panics, result, g := Parse(x, root, a, d);
    if panics || result != [] {
      return;
    }
    assert Distinct(root, a, d) by { FitsDistinct(root, a, d); }
    Reduce(x.applyDag, root, g, Fns(a));
    Reduce(x.deleteDag, root, g, Fns(d));
  }

  lemma FitsDistinct(root: Vertex, a: Option<Pipeline>, d: Option<Pipeline>)
    requires FitsConfig(root, a, d)
    ensures Distinct(root, a, d)
  {}

  lemma DistinctApart(root: Vertex, a: Option<Pipeline>, d: Option<Pipeline>)
    requires Distinct(root, a, d)
    ensures SectionsApart(a) && SectionsApart(d)
  {}

  lemma TableKeys(g0: Table, g: Table, fns: Functions)
    requires Tabulates(g0, g, fns)
    ensures g.Keys == g0.Keys + DeclaredBy(fns)
  {
    forall x
      ensures x in g <==> x in g0.Keys + DeclaredBy(fns)
    {
      if x in DeclaredBy(fns) {
        var v :| v in fns && x in Declared(v, fns[v]);
        assert Declares(fns, v, x);
      }
    }
  }

  lemma DeclaresInsert(fns: Functions, v: Vertex, f: Function)
    requires v !in fns
    ensures forall u, x :: Declares(fns[v := f], u, x) <==> Declares(fns, u, x) || (u == v && x in Declared(v, f))
  {}

  lemma DeclaresJoin(a: Functions, b: Functions)
    requires a.Keys !! b.Keys
    ensures forall u, x :: Declares(a + b, u, x) <==> Declares(a, u, x) || Declares(b, u, x)
    ensures forall u, x, v, y :: Declares(a, u, x) && Declares(b, v, y) ==> u != v
  {}

  lemma NotYet(fns: Functions, v: Vertex)
    requires v !in fns
    ensures forall x :: !Declares(fns, v, x)
  {}

  lemma FreshLess(known: set<Name>, vertices: set<Vertex>, fns: Functions, v: Vertex, f: Function)
    requires v !in fns && Fresh(known, vertices, fns[v := f])
    ensures Fresh(known, vertices, fns) && Declared(v, f) !! known && v !in vertices
    ensures forall u, x :: Declares(fns, u, x) ==> x !in Declared(v, f)
  {
    DeclaresInsert(fns, v, f);
    NotYet(fns, v);
    forall x | x in Declared(v, f)
      ensures x !in known && forall u :: !Declares(fns, u, x)
    {
      assert Declares(fns[v := f], v, x);
    }
    assert v in fns[v := f];
  }

  lemma FreshMore(known: set<Name>, vertices: set<Vertex>, fns: Functions, v: Vertex, f: Function)
    requires v !in fns && Fresh(known, vertices, fns) && Declared(v, f) !! known && v !in vertices
    requires forall u, x :: Declares(fns, u, x) ==> x !in Declared(v, f)
    ensures Fresh(known, vertices, fns[v := f])
  {
    var more := fns[v := f];
    forall u, x | Declares(more, u, x)
      ensures x !in known
    {
      assert u == v || Declares(fns, u, x);
    }
    forall u, w, x | Declares(more, u, x) && Declares(more, w, x)
      ensures u == w
    {
      assert u == v || Declares(fns, u, x);
      assert w == v || Declares(fns, w, x);
    }
  }

  lemma TableMore(g0: Table, g: Table, fns: Functions, v: Vertex, f: Function)
    requires v !in fns && Tabulates(g0, g, fns) && Declared(v, f) !! g.Keys
    ensures Tabulates(g0, g + map x | x in Declared(v, f) :: Info(v), fns[v := f])
  {
    var h := g + map x | x in Declared(v, f) :: Info(v);
    var more := fns[v := f];
    forall u, x | Declares(more, u, x)
      ensures x in h && h[x] == Info(u)
    {
      assert u == v || Declares(fns, u, x);
    }
    forall x | x in h && x !in g0
      ensures Declares(more, h[x].outputVertex, x)
    {
      if x in Declared(v, f) {
        assert h[x] == Info(v);
      } else {
        assert Declares(fns, g[x].outputVertex, x);
      }
    }
  }

  /** Adding one more function to those that have been tabulated. */
  lemma FreshInsert(g0: Table, g: Table, vertices: set<Vertex>, fns: Functions, v: Vertex, f: Function)
    requires v !in fns && Tabulates(g0, g, fns) && Fresh(g0.Keys, vertices, fns)
    ensures Fresh(g0.Keys, vertices, fns[v := f]) <==> Declared(v, f) !! g.Keys && v !in vertices + fns.Keys
  {
    hide Fresh, Declares;
    if Fresh(g0.Keys, vertices, fns[v := f]) {
      FreshLess(g0.Keys, vertices, fns, v, f);
      assert forall x :: x in g && x !in g0 ==> Declares(fns, g[x].outputVertex, x);
    }
    if Declared(v, f) !! g.Keys && v !in vertices + fns.Keys {
      FreshMore(g0.Keys, vertices, fns, v, f);
    }
  }

  lemma FreshParts(known: set<Name>, vertices: set<Vertex>, a: Functions, b: Functions)
    ensures a.Keys !! b.Keys && Fresh(known, vertices, a + b) ==> Fresh(known, vertices, a)
  {
    if a.Keys !! b.Keys {
      DeclaresJoin(a, b);
    }
  }

  lemma FreshJoin(g0: Table, mid: Table, vertices: set<Vertex>, a: Functions, b: Functions)
    requires Fresh(g0.Keys, vertices, a) && Tabulates(g0, mid, a)
    ensures Fresh(mid.Keys, vertices + a.Keys, b) <==> a.Keys !! b.Keys && Fresh(g0.Keys, vertices, a + b)
  {
    hide Declares;
    if a.Keys !! b.Keys {
      DeclaresJoin(a, b);
      TableKeys(g0, mid, a);
      if Fresh(g0.Keys, vertices, a + b) {
        assert forall x :: x in mid ==> x in g0 || Declares(a, mid[x].outputVertex, x);
        assert forall v, x :: Declares(a, v, x) || Declares(b, v, x) ==> Declares(a + b, v, x);
        assert forall v, x :: Declares(b, v, x) ==> x !in mid;
      }
    }
  }

  lemma TableJoin(g0: Table, mid: Table, g: Table, a: Functions, b: Functions)
    requires a.Keys !! b.Keys && Tabulates(g0, mid, a) && Tabulates(mid, g, b)
    ensures Tabulates(g0, g, a + b)
  {
    hide Declares;
    DeclaresJoin(a, b);
  }
}
