/** The resolve phase: every name a function looks up must be in the variable table, and every vertex it
    depends on in the graph. */
module Resolver {
  import opened Graphs
  import opened Wrappers
  import opened References
  import opened Pipelines
  import opened Connector

  class ResolvePhase {
    const gvar: Table
    var result: seq<Name>

    constructor (gvar: Table)
      ensures this.gvar == gvar && result == []
    {
      this.gvar, result := gvar, [];
    }

    /** What the phase has found once it has seen names. */
    ghost predicate Seen(names: set<Name>, locals: set<Name>, failed: bool)
      reads this`result
    {
      result != [] <==> failed || !(names - locals <= gvar.Keys)
    }

    method ResolveRefs(locals: set<Name>, s: string, ghost names: set<Name>, ghost failed: bool)
      requires Named(s) && Seen(names, locals, failed)
      modifies this
      ensures Seen(names + NamesIn({s}), locals, failed)
    {
      var rfs := new Scanner();
      var found := rfs.GetReferences(s);
      NamesInOne(s);
      ghost var seen: set<Name> := {};
      for i := 0 to |found|
        invariant seen == set x | x in Refs(s)[..i] && Regular(x)
        invariant Seen(names + seen, locals, failed)
      {
        var x := found[i].value;
        assert x == Refs(s)[i] && x in Refs(s) && Refs(s)[..i + 1] == Refs(s)[..i] + [x];
        if found[i].kind.RegularReferenceKind? && x[0] != '_' {
          if x !in locals && x !in gvar {
            result := result + [x];
          }
          seen := seen + {x};
        }
      }
      assert Refs(s)[..|found|] == Refs(s);
    }

    method ResolveIfAny(locals: set<Name>, t: string, ghost names: set<Name>, ghost failed: bool)
      requires (t != "" ==> Named(t)) && Seen(names, locals, failed)
      modifies this
      ensures Seen(names + NamesIn(Nonempty(t)), locals, failed)
    {
      hide Seen, NamesIn;
      NoNames(names);
      if t != "" {
        ResolveRefs(locals, t, names, failed);
      }
    }

    method ResolveValues(locals: set<Name>, m: map<string, string>, ghost names: set<Name>, ghost failed: bool)
      requires Seen(names, locals, failed) && forall t :: t in m.Values ==> Named(t)
      modifies this
      ensures Seen(names + NamesIn(m.Values), locals, failed)
    {
      hide Seen, NamesIn;
      ghost var seen: set<string> := {};
      NoNames(names);
      var todo := m.Keys;
      while todo != {}
        invariant todo <= m.Keys && seen <= m.Values && forall k :: k in m && k !in todo ==> m[k] in seen
        invariant Seen(names + NamesIn(seen), locals, failed)
        decreases todo
      {
        var k :| k in todo;
        todo := todo - {k};
        ResolveRefs(locals, m[k], names + NamesIn(seen), failed);
        NamesInMore(names, seen, {m[k]});
        seen := seen + {m[k]};
      }
      assert seen == m.Values;
    }

    method ResolveLabels(locals: set<Name>, m: map<string, string>, ghost names: set<Name>, ghost failed: bool)
      requires Seen(names, locals, failed) && forall t :: t in m.Keys + m.Values ==> Named(t)
      modifies this
      ensures Seen(names + NamesIn(m.Keys + m.Values), locals, failed)
    {
      hide Seen, NamesIn;
      ghost var seen: set<string> := {};
      NoNames(names);
      var todo := m.Keys;
      while todo != {}
        invariant todo <= m.Keys && seen <= m.Keys + m.Values
        invariant forall k :: k in m && k !in todo ==> k in seen && m[k] in seen
        invariant Seen(names + NamesIn(seen), locals, failed)
        decreases todo
      {
        var k :| k in todo;
        todo := todo - {k};
        ResolveRefs(locals, k, names + NamesIn(seen), failed);
        NamesInMore(names, seen, {k});
        ResolveRefs(locals, m[k], names + NamesIn(seen + {k}), failed);
        NamesInMore(names, seen + {k}, {m[k]});
        seen := seen + {k} + {m[k]};
      }
      assert seen == m.Keys + m.Values;
    }

    method ResolveBlock(locals: set<Name>, b: Block, ghost names: set<Name>, ghost failed: bool)
      requires Seen(names, locals, failed) && forall t :: t in BlockTexts(b) ==> Named(t)
      modifies this
      ensures Seen(names + NamesIn(BlockTexts(b)), locals, failed)
      decreases b
    {
      hide Seen, NamesIn;
      NoNames(names);
      ghost var seen: set<string> := {};
      if b.range.Some? {
        var n := b.range.value;
        assert NestedTexts(b.range) == {n.text} + BlockTexts(n.inner);
        ResolveRefs(locals, n.text, names + NamesIn(seen), failed);
        NamesInMore(names, seen, {n.text});
        seen := seen + {n.text};
        if n.inner.range.Some? || n.inner.condition.Some? {
          ResolveBlock(locals, n.inner, names + NamesIn(seen), failed);
          NamesInMore(names, seen, BlockTexts(n.inner));
          seen := seen + BlockTexts(n.inner);
        }
      }
      assert seen == NestedTexts(b.range);
      assert BlockTexts(b) == NestedTexts(b.range) + NestedTexts(b.condition);
      if b.condition.Some? {
        var n := b.condition.value;
        assert NestedTexts(b.condition) == {n.text} + BlockTexts(n.inner);
        ResolveRefs(locals, n.text, names + NamesIn(seen), failed);
        NamesInMore(names, seen, {n.text});
        seen := seen + {n.text};
        if n.inner.range.Some? || n.inner.condition.Some? {
          ResolveBlock(locals, n.inner, names + NamesIn(seen), failed);
          NamesInMore(names, seen, BlockTexts(n.inner));
          seen := seen + BlockTexts(n.inner);
        }
      }
      assert seen == BlockTexts(b);
    }

    method ResolveInput(locals: set<Name>, i: Input, ghost names: set<Name>, ghost failed: bool)
      requires Seen(names, locals, failed) && forall t :: t in InputTexts(i) ==> Named(t)
      modifies this
      ensures Seen(names + NamesIn(InputTexts(i)), locals, failed)
    {
      hide Seen, NamesIn;
      ghost var k, v, e, g, l :=
        Nonempty(i.key), Nonempty(i.value), Nonempty(i.expression), i.generic.Values, LabelTexts(i.labels);
      match i.labels {
        case Some(m) => ResolveLabels(locals, m, names, failed);
        case None => NoNames(names);
      }
      ResolveIfAny(locals, i.key, names + NamesIn(l), failed);
      NamesInMore(names, l, k);
      ResolveIfAny(locals, i.value, names + NamesIn(l + k), failed);
      NamesInMore(names, l + k, v);
      ResolveIfAny(locals, i.expression, names + NamesIn(l + k + v), failed);
      NamesInMore(names, l + k + v, e);
      ResolveValues(locals, i.generic, names + NamesIn(l + k + v + e), failed);
      NamesInMore(names, l + k + v + e, g);
      assert l + k + v + e + g == k + v + e + g + l;
    }

    method ResolveDependsOn(d: RuntimeDag, deps: seq<Vertex>)
      modifies this
      ensures result != [] <==> old(result) != [] || exists v :: v in deps && v !in d.dag.vertices
    {
      for i := 0 to |deps|
        invariant result != [] <==> old(result) != [] || exists v :: v in deps[..i] && v !in d.dag.vertices
      {
        assert deps[..i + 1] == deps[..i] + [deps[i]];
        if deps[i] !in d.dag.vertices {
          result := result + [deps[i]];
        }
      }
      assert deps[..|deps|] == deps;
    }

    /** An input is needed: the code reads its selector without asking. There is an error if and only if
        the function wants an undeclared name or depends on a vertex that is not there. */
    method ResolveFunction(d: RuntimeDag, f: Function)
      requires f.input.Some? && TextsNamed(f)
      modifies this
      ensures result != [] <==> old(result) != [] || !Resolvable(gvar.Keys, d.dag.vertices.Keys, f)
    {
      ghost var failed := result != [];
      ResolveTexts(f, failed);
      ResolveDependsOn(d, f.dependsOn);
    }

    method ResolveTexts(f: Function, ghost failed: bool)
      requires f.input.Some? && TextsNamed(f) && failed == (result != [])
      modifies this
      ensures Seen(NamesIn(Texts(f)), f.vars.Keys, failed)
    {
      var locals := f.vars.Keys;
      FunctionTexts(f);
      ghost var a, b, c := f.vars.Values, BlockTexts(f.block), InputTexts(f.input.value);
      assert {} + NamesIn(a) == NamesIn(a) && Seen({}, locals, failed);
      hide Seen, NamesIn, Texts, InputTexts, BlockTexts;
      ResolveValues(locals, f.vars, {}, failed);
      NamesInUnion(a, b);
      if f.block.range.Some? || f.block.condition.Some? {
        ResolveBlock(locals, f.block, NamesIn(a), failed);
      } else {
        assert NamesIn(a) + {} == NamesIn(a);
      }
      NamesInUnion(a + b, c);
      ResolveInput(locals, f.input.value, NamesIn(a + b), failed);
    }
  }

  ghost predicate Resolvable(known: set<Name>, vertices: set<Vertex>, f: Function) {
    Wanted(f) <= known && forall v :: v in f.dependsOn ==> v in vertices
  }

  ghost predicate AllResolvable(known: set<Name>, vertices: set<Vertex>, fns: Functions) {
    forall v :: v in fns ==> Resolvable(known, vertices, fns[v])
  }

  predicate HaveInputs(fns: Functions) {
    forall v :: v in fns ==> fns[v].input.Some?
  }

  /** The functions of one section, in any order. */
  method ResolveSection(r: ResolvePhase, d: RuntimeDag, m: Functions)
    requires HaveInputs(m) && AllNamed(m)
    modifies r
    ensures r.result != [] <==> old(r.result) != [] || !AllResolvable(r.gvar.Keys, d.dag.vertices.Keys, m)
  {
    hide Resolvable, Texts;
    var todo := m.Keys;
    while todo != {}
      invariant todo <= m.Keys
      invariant (r.result != []) ==
                (old(r.result) != [] ||
                 exists v :: v in m && v !in todo && !Resolvable(r.gvar.Keys, d.dag.vertices.Keys, m[v]))
      decreases todo
    {
      var v :| v in todo;
      todo := todo - {v};
      r.ResolveFunction(d, m[v]);
    }
  }
}
