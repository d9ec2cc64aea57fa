/** The connect phase: every reference of a function becomes an edge from the vertex that declares the
    name, and an error if nothing declares it. */
module Connector {
  import opened Graphs
  import opened DagStore
  import opened Wrappers
  import opened References
  import opened Pipelines

  datatype VertexContext = Root | Fn(f: Function)

  /** A dag with the references of its vertices. */
  class RuntimeDag {
    const dag: Dag<VertexContext>
    var references: map<Vertex, seq<Name>>

    constructor ()
      ensures fresh(dag) && dag.Valid() && dag.vertices == map[] && dag.Edges() == {} && references == map[]
    {
      dag := new Dag<VertexContext>();
      references := map[];
    }

    ghost function ReferencesOf(v: Vertex): seq<Name>
      reads this`references
    {
      if v in references then references[v] else []
    }

    /** A name is listed once. */
    method AddReference(v: Vertex, s: Name)
      modifies this`references
      ensures ReferencesOf(v) == old(ReferencesOf(v)) + if s in old(ReferencesOf(v)) then [] else [s]
      ensures forall u :: u != v ==> ReferencesOf(u) == old(ReferencesOf(u))
    {
      var refs := if v in references then references[v] else [];
      var found := false;
      for i := 0 to |refs|
        invariant found <==> s in refs[..i]
      {
        if refs[i] == s {
          found := true;
        }
      }
      assert refs[..|refs|] == refs;
      if !found {
        references := references[v := refs + [s]];
      }
    }
  }

  /** Where the walk over the configuration is; blockVertexName is empty outside blocks. */
  datatype Origin =
    Origin(rootVertexName: Vertex, vertexName: Vertex, blockIndex: nat, blockVertexName: Vertex, localVars: set<Name>)

  /** What a vertex and its graph were before the phase came to the vertex. */
  datatype Past = Past(es: Edges, refs: seq<Name>, failed: bool)

  class ConnectPhase {
    var gvar: Table
    var main: RuntimeDag
    var result: seq<Name>

    constructor (gvar: Table, main: RuntimeDag)
      ensures this.gvar == gvar && this.main == main && result == []
    {
      this.gvar, this.main, this.result := gvar, main, [];
    }

    /** One looked-up name. A name declared outside the block of the reader is connected to the block
        vertex inside the block; outside it the code uses the vertexName of the variable, which nobody
        sets, and an origin it has just cleared, so the edge there is from "" to "". */
    method ConnectName(oc: Origin, d: RuntimeDag, x: Name)
      requires d.dag.Valid() && main.dag.Valid() && (oc.blockIndex > 0 ==> d.dag != main.dag)
      modifies this`result, d.dag, main.dag
      ensures d.dag.Valid() && main.dag.Valid()
      ensures d.dag.vertices == old(d.dag.vertices) && main.dag.vertices == old(main.dag.vertices)
      ensures result == old(result) + if x in gvar then [] else [x]
      ensures d.dag.Edges() == old(d.dag.Edges()) +
                if x !in gvar then {}
                else if gvar[x].blockIndex < oc.blockIndex then {Edge(oc.blockVertexName, oc.vertexName)}
                else if gvar[x].blockIndex > oc.blockIndex then {Edge(gvar[x].blockVertexName, oc.vertexName)}
                else {Edge(gvar[x].outputVertex, oc.vertexName)}
      ensures d.dag != main.dag ==>
                main.dag.Edges() == old(main.dag.Edges()) +
                  if x in gvar && gvar[x].blockIndex < oc.blockIndex then {Edge(gvar[x].vertexName, "")} else {}
    {
      if x !in gvar {
        result := result + [x];
        return;
      }
      var info := gvar[x];
      if info.blockIndex < oc.blockIndex {
        d.dag.Connect(oc.blockVertexName, oc.vertexName);
        var outer := oc.(blockIndex := 0, blockVertexName := "");
        main.dag.Connect(info.vertexName, outer.blockVertexName);
      } else if info.blockIndex > oc.blockIndex {
        d.dag.Connect(info.blockVertexName, oc.vertexName);
      } else {
        d.dag.Connect(info.outputVertex, oc.vertexName);
      }
    }

    /** What the phase has done once it has seen names, for a vertex outside blocks. */
    ghost predicate Connected(oc: Origin, names: set<Name>, past: Past)
      reads this, main, main.dag
    {
      && main.dag.Valid()
      && main.dag.Edges() == past.es + RefEdges(gvar, names - oc.localVars, oc.vertexName)
      && (result != [] <==> past.failed || !(names - oc.localVars <= gvar.Keys))
      && (forall x :: x in main.ReferencesOf(oc.vertexName) <==> x in past.refs || x in names)
    }

    ghost predicate BlockFree()
      reads this`gvar
    {
      forall x :: x in gvar ==> gvar[x].blockIndex == 0
    }

    /** One regular name outside blocks. */
    method ConnectOne(oc: Origin, x: Name, ghost names: set<Name>, ghost past: Past)
      requires BlockFree() && oc.blockIndex == 0 && Connected(oc, names, past)
      modifies this`result, main, main.dag
      ensures main.dag.vertices == old(main.dag.vertices)
      ensures Connected(oc, names + {x}, past)
      ensures forall u :: u != oc.vertexName ==> main.ReferencesOf(u) == old(main.ReferencesOf(u))
    {
      main.AddReference(oc.vertexName, x);
      if x in oc.localVars {
        assert names + {x} - oc.localVars == names - oc.localVars;
        return;
      }
      assert names + {x} - oc.localVars == names - oc.localVars + {x};
      RefEdgesInsert(gvar, names - oc.localVars, x, oc.vertexName);
      ConnectName(oc, main, x);
    }

    /** On an empty name the code indexes out of range: the result is false, and nothing is promised. */
    method ConnectRefs(oc: Origin, s: string, ghost names: set<Name>, ghost past: Past) returns (ok: bool)
      requires BlockFree() && oc.blockIndex == 0 && Connected(oc, names, past)
      modifies this`result, main, main.dag
      ensures main.dag.vertices == old(main.dag.vertices)
      ensures ok <==> Named(s)
      ensures ok ==> Connected(oc, names + NamesIn({s}), past)
      ensures forall u :: u != oc.vertexName ==> main.ReferencesOf(u) == old(main.ReferencesOf(u))
    {
      hide Connected;
      var rfs := new Scanner();
      var found := rfs.GetReferences(s);
      NamesInOne(s);
      ghost var seen: set<Name> := {};
      assert names + seen == names;
      for i := 0 to |found|
        invariant main.dag.vertices == old(main.dag.vertices)
        invariant seen == set x | x in Refs(s)[..i] && Regular(x)
        invariant "" !in Refs(s)[..i]
        invariant Connected(oc, names + seen, past)
        invariant forall u :: u != oc.vertexName ==> main.ReferencesOf(u) == old(main.ReferencesOf(u))
      {
        var x := found[i].value;
        assert x == Refs(s)[i] && x in Refs(s) && Refs(s)[..i + 1] == Refs(s)[..i] + [x];
        if found[i].kind.RegularReferenceKind? && x == "" {
          return false;
        }
        if found[i].kind.RegularReferenceKind? && x[0] != '_' {
          ConnectOne(oc, x, names + seen, past);
          assert names + seen + {x} == names + (seen + {x});
          seen := seen + {x};
        }
      }
      assert Refs(s)[..|found|] == Refs(s);
      return true;
    }

    /** The values of a map, in any order. */
    method ConnectValues(oc: Origin, m: map<string, string>, ghost names: set<Name>, ghost past: Past)
      returns (ok: bool)
      requires BlockFree() && oc.blockIndex == 0 && Connected(oc, names, past)
      modifies this`result, main, main.dag
      ensures main.dag.vertices == old(main.dag.vertices)
      ensures ok <==> forall t :: t in m.Values ==> Named(t)
      ensures ok ==> Connected(oc, names + NamesIn(m.Values), past)
      ensures forall u :: u != oc.vertexName ==> main.ReferencesOf(u) == old(main.ReferencesOf(u))
    {
      hide Connected, NamesIn, Named;
      ghost var seen: set<string> := {};
      NoNames(names);
      var todo := m.Keys;
      while todo != {}
        invariant todo <= m.Keys && seen <= m.Values && forall k :: k in m && k !in todo ==> m[k] in seen
        invariant main.dag.vertices == old(main.dag.vertices)
        invariant (forall t :: t in seen ==> Named(t)) && Connected(oc, names + NamesIn(seen), past)
        invariant forall u :: u != oc.vertexName ==> main.ReferencesOf(u) == old(main.ReferencesOf(u))
        decreases todo
      {
        var k :| k in todo;
        todo := todo - {k};
        ok := ConnectRefs(oc, m[k], names + NamesIn(seen), past);
        if !ok {
          return;
        }
        NamesInMore(names, seen, {m[k]});
        seen := seen + {m[k]};
      }
      assert seen == m.Values;
      return true;
    }

    method ConnectLabels(oc: Origin, m: map<string, string>, ghost names: set<Name>, ghost past: Past)
      returns (ok: bool)
      requires BlockFree() && oc.blockIndex == 0 && Connected(oc, names, past)
      modifies this`result, main, main.dag
      ensures main.dag.vertices == old(main.dag.vertices)
      ensures ok <==> forall t :: t in m.Keys + m.Values ==> Named(t)
      ensures ok ==> Connected(oc, names + NamesIn(m.Keys + m.Values), past)
      ensures forall u :: u != oc.vertexName ==> main.ReferencesOf(u) == old(main.ReferencesOf(u))
    {
      hide Connected, NamesIn, Named;
      ghost var seen: set<string> := {};
      NoNames(names);
      var todo := m.Keys;
      while todo != {}
        invariant todo <= m.Keys && seen <= m.Keys + m.Values
        invariant forall k :: k in m && k !in todo ==> k in seen && m[k] in seen
        invariant main.dag.vertices == old(main.dag.vertices)
        invariant (forall t :: t in seen ==> Named(t)) && Connected(oc, names + NamesIn(seen), past)
        invariant forall u :: u != oc.vertexName ==> main.ReferencesOf(u) == old(main.ReferencesOf(u))
        decreases todo
      {
        var k :| k in todo;
        todo := todo - {k};
        ok := ConnectRefs(oc, k, names + NamesIn(seen), past);
        if !ok {
          return;
        }
        NamesInMore(names, seen, {k});
        ok := ConnectRefs(oc, m[k], names + NamesIn(seen + {k}), past);
        if !ok {
          return;
        }
        NamesInMore(names, seen + {k}, {m[k]});
        seen := seen + {k} + {m[k]};
      }
      assert seen == m.Keys + m.Values;
      return true;
    }

    method ConnectBlock(oc: Origin, b: Block, ghost names: set<Name>, ghost past: Past) returns (ok: bool)
      requires BlockFree() && oc.blockIndex == 0 && Connected(oc, names, past)
      modifies this`result, main, main.dag
      ensures main.dag.vertices == old(main.dag.vertices)
      ensures ok <==> forall t :: t in BlockTexts(b) ==> Named(t)
      ensures ok ==> Connected(oc, names + NamesIn(BlockTexts(b)), past)
      ensures forall u :: u != oc.vertexName ==> main.ReferencesOf(u) == old(main.ReferencesOf(u))
      decreases b
    {
      hide Connected, NamesIn, Named;
      NoNames(names);
      ghost var seen: set<string> := {};
      if b.range.Some? {
        var n := b.range.value;
        assert NestedTexts(b.range) == {n.text} + BlockTexts(n.inner);
        ok := ConnectRefs(oc, n.text, names + NamesIn(seen), past);
        if !ok {
          return;
        }
        NamesInMore(names, seen, {n.text});
        seen := seen + {n.text};
        if n.inner.range.Some? || n.inner.condition.Some? {
          ok := ConnectBlock(oc, n.inner, names + NamesIn(seen), past);
          if !ok {
            return;
          }
          NamesInMore(names, seen, BlockTexts(n.inner));
          seen := seen + BlockTexts(n.inner);
        }
      }
      assert seen == NestedTexts(b.range);
      assert BlockTexts(b) == NestedTexts(b.range) + NestedTexts(b.condition);
      if b.condition.Some? {
        var n := b.condition.value;
        assert NestedTexts(b.condition) == {n.text} + BlockTexts(n.inner);
        ok := ConnectRefs(oc, n.text, names + NamesIn(seen), past);
        if !ok {
          return;
        }
        NamesInMore(names, seen, {n.text});
        seen := seen + {n.text};
        if n.inner.range.Some? || n.inner.condition.Some? {
          ok := ConnectBlock(oc, n.inner, names + NamesIn(seen), past);
          if !ok {
            return;
          }
          NamesInMore(names, seen, BlockTexts(n.inner));
          seen := seen + BlockTexts(n.inner);
        }
      }
      assert seen == BlockTexts(b);
      return true;
    }

    /** One edge that no reference asks for. */
    method ConnectVertex(oc: Origin, from: Vertex, ghost names: set<Name>, ghost past: Past)
      requires Connected(oc, names, past)
      modifies main.dag
      ensures main.dag.vertices == old(main.dag.vertices)
      ensures Connected(oc, names, past.(es := past.es + {Edge(from, oc.vertexName)}))
    {
      main.dag.Connect(from, oc.vertexName);
    }

    method ConnectIfAny(oc: Origin, t: string, ghost names: set<Name>, ghost past: Past) returns (ok: bool)
      requires BlockFree() && oc.blockIndex == 0 && Connected(oc, names, past)
      modifies this`result, main, main.dag
      ensures main.dag.vertices == old(main.dag.vertices)
      ensures ok <==> forall u :: u in Nonempty(t) ==> Named(u)
      ensures ok ==> Connected(oc, names + NamesIn(Nonempty(t)), past)
      ensures forall u :: u != oc.vertexName ==> main.ReferencesOf(u) == old(main.ReferencesOf(u))
    {
      hide Connected, NamesIn, Named;
      NoNames(names);
      ok := true;
      if t != "" {
        ok := ConnectRefs(oc, t, names, past);
      }
    }

    method ConnectInput(oc: Origin, i: Input, ghost names: set<Name>, ghost past: Past)
      returns (ok: bool, ghost now: Past)
      requires BlockFree() && oc.blockIndex == 0 && Connected(oc, names, past)
      modifies this`result, main, main.dag
      ensures main.dag.vertices == old(main.dag.vertices)
      ensures now == past.(es := past.es + if i.hasResource then {Edge(oc.rootVertexName, oc.vertexName)} else {})
      ensures ok <==> forall t :: t in InputTexts(i) ==> Named(t)
      ensures ok ==> Connected(oc, names + NamesIn(InputTexts(i)), now)
      ensures forall u :: u != oc.vertexName ==> main.ReferencesOf(u) == old(main.ReferencesOf(u))
    {
      hide Connected, NamesIn, Named;
      now := past.(es := past.es + {});
      assert past.es + {} == past.es;
      assert now == past;
      if i.hasResource {
        now := past.(es := past.es + {Edge(oc.rootVertexName, oc.vertexName)});
        ConnectVertex(oc, oc.rootVertexName, names, past);
      }
      ghost var k, v, e, g, l :=
        Nonempty(i.key), Nonempty(i.value), Nonempty(i.expression), i.generic.Values, LabelTexts(i.labels);
      ok := ConnectIfAny(oc, i.key, names, now);
      if !ok {
        return;
      }
      ok := ConnectIfAny(oc, i.value, names + NamesIn(k), now);
      if !ok {
        return;
      }
      NamesInMore(names, k, v);
      ok := ConnectIfAny(oc, i.expression, names + NamesIn(k + v), now);
      if !ok {
        return;
      }
      NamesInMore(names, k + v, e);
      ok := ConnectValues(oc, i.generic, names + NamesIn(k + v + e), now);
      if !ok {
        return;
      }
      NamesInMore(names, k + v + e, g);
      match i.labels {
        case Some(m) => ok := ConnectLabels(oc, m, names + NamesIn(k + v + e + g), now);
        case None => NoNames(names + NamesIn(k + v + e + g));
      }
      NamesInMore(names, k + v + e + g, l);
    }

    method ConnectDependsOn(oc: Origin, deps: seq<Vertex>, ghost names: set<Name>, ghost past: Past)
      requires Connected(oc, names, past)
      modifies main.dag
      ensures main.dag.vertices == old(main.dag.vertices)
      ensures Connected(oc, names, past.(es := past.es + AfterEdges(oc.vertexName, deps)))
    {
      hide Connected;
      ghost var es := past.es;
      assert past.(es := es) == past;
      for i := 0 to |deps|
        invariant main.dag.vertices == old(main.dag.vertices)
        invariant es == past.es + AfterEdges(oc.vertexName, deps[..i]) && Connected(oc, names, past.(es := es))
      {
        assert deps[..i + 1] == deps[..i] + [deps[i]];
        ConnectVertex(oc, deps[i], names, past.(es := es));
        ghost var more := es + {Edge(deps[i], oc.vertexName)};
        assert past.(es := es).(es := more) == past.(es := more);
        es := more;
      }
      assert deps[..|deps|] == deps;
    }

    method ConnectParts(oc: Origin, f: Function, ghost past: Past) returns (ok: bool)
      requires BlockFree() && oc.blockIndex == 0 && Connected(oc, {}, past)
      modifies this`result, main, main.dag
      ensures main.dag.vertices == old(main.dag.vertices)
      ensures ok <==> TextsNamed(f)
      ensures ok ==> Connected(oc, NamesIn(Texts(f)),
                               past.(es := past.es + RootEdges(oc.rootVertexName, oc.vertexName, f)
                                             + AfterEdges(oc.vertexName, f.dependsOn)))
      ensures forall u :: u != oc.vertexName ==> main.ReferencesOf(u) == old(main.ReferencesOf(u))
    {
      hide Connected, NamesIn, Named, Texts, InputTexts, BlockTexts;
      FunctionTexts(f);
      ghost var a, b, c :=
        f.vars.Values, BlockTexts(f.block), if f.input.Some? then InputTexts(f.input.value) else {};
      assert {} + NamesIn(a) == NamesIn(a);
      ok := ConnectValues(oc, f.vars, {}, past);
      if !ok {
        return;
      }
      NamesInUnion(a, b);
      if f.block.range.Some? || f.block.condition.Some? {
        ok := ConnectBlock(oc, f.block, NamesIn(a), past);
        if !ok {
          return;
        }
      } else {
        assert NamesIn(a) + {} == NamesIn(a);
      }
      assert Connected(oc, NamesIn(a + b), past);
      NamesInUnion(a + b, c);
      ghost var now := past.(es := past.es + RootEdges(oc.rootVertexName, oc.vertexName, f));
      if f.input.Some? {
        ghost var after;
        ok, after := ConnectInput(oc, f.input.value, NamesIn(a + b), past);
        if !ok {
          return;
        }
        assert after == now;
      } else {
        NoNames(NamesIn(a + b));
        assert past.es + {} == past.es && now == past;
      }
      assert Connected(oc, NamesIn(Texts(f)), now);
      ConnectDependsOn(oc, f.dependsOn, NamesIn(Texts(f)), now);
    }

    /** A function outside blocks: its graph gets the edges that the pipeline asks for, and there is an
        error exactly when it wants a name that nothing declares. */
    method ConnectFunction(oc: Origin, f: Function) returns (ok: bool)
      requires BlockFree() && oc.blockIndex == 0 && oc.localVars == f.vars.Keys && main.dag.Valid()
      modifies this`result, main, main.dag
      ensures ok <==> TextsNamed(f)
      ensures main.dag.vertices == old(main.dag.vertices)
      ensures ok ==> main.dag.Valid()
      ensures ok ==> main.dag.Edges() == old(main.dag.Edges()) + EdgesOf(oc.rootVertexName, gvar, oc.vertexName, f)
      ensures ok ==> (result != [] <==> old(result) != [] || !(Wanted(f) <= gvar.Keys))
      ensures ok ==> forall x :: x in main.ReferencesOf(oc.vertexName) <==>
                                   x in old(main.ReferencesOf(oc.vertexName)) || x in NamesIn(Texts(f))
      ensures forall u :: u != oc.vertexName ==> main.ReferencesOf(u) == old(main.ReferencesOf(u))
    {
      hide Texts, NamesIn, RefEdges, RootEdges, AfterEdges;
      ghost var past := Past(main.dag.Edges(), main.ReferencesOf(oc.vertexName), result != []);
      Untouched(oc, past);
      ok := ConnectParts(oc, f, past);
    }

    lemma Untouched(oc: Origin, past: Past)
      requires main.dag.Valid() && past == Past(main.dag.Edges(), main.ReferencesOf(oc.vertexName), result != [])
      ensures Connected(oc, {}, past)
    {}
  }

  lemma FunctionTexts(f: Function)
    ensures Texts(f) == f.vars.Values + BlockTexts(f.block) + (if f.input.Some? then InputTexts(f.input.value) else {})
    ensures f.block.range.None? && f.block.condition.None? ==>
            BlockTexts(f.block) == {} && NamesIn(BlockTexts(f.block)) == {}
  {}

  lemma NoNames(names: set<Name>)
    ensures names + NamesIn({}) == names
  {}

  lemma NamesInMore(names: set<Name>, a: set<string>, b: set<string>)
    ensures names + NamesIn(a) + NamesIn(b) == names + NamesIn(a + b)
  {
    NamesInUnion(a, b);
  }

  lemma RefEdgesInsert(g: Table, names: set<Name>, x: Name, v: Vertex)
    ensures RefEdges(g, names + {x}, v) == RefEdges(g, names, v) + if x in g then {Edge(g[x].outputVertex, v)} else {}
  {}
}
