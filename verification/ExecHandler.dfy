/** The code that runs one vertex function: it gathers the input name by name, runs the function, and
    merges its output. Left alone, it does the steps that ExecData interleaves. */
module ExecHandler {
  import opened Wrappers
  import opened Graphs
  import opened KeyValue
  import opened ExecData
  import opened Executor
  import D = ExecDataSchedules

  /** The function that a vertex runs, for given input: its outputs and whether it had no error. */
  type VertexFn = map<Name, Option<Json>> -> FnResult

  ghost function Lookup(out: Output, n: Name): Option<Json> {
    if n in out then Some(out[n]) else None
  }

  class Handler {
    const output: Kv

    constructor (output: Kv)
      ensures this.output == output
    {
      this.output := output;
    }

    method GatherRefs(refs: seq<Name>, i0: Input) returns (i: Input)
      ensures i == i0 + map n | n in refs :: Lookup(output.d, n)
    {
      i := i0;
      for k := 0 to |refs|
        invariant i == i0 + map n | n in refs[..k] :: Lookup(output.d, n)
      {
        var v := output.GetValue(refs[k]);
        i := i[refs[k] := v];
        assert refs[..k + 1] == refs[..k] + [refs[k]];
      }
      assert refs[..|refs|] == refs;
    }

    /** What a function of kind reads of the shared map: the resource comes first for an image, and a
        function of the resource itself reads nothing. */
    method Gather(kind: FnKind, root: Name, refs: seq<Name>) returns (i: Input)
      ensures Gathered(kind, root, refs, output.d, i)
    {
      i := map[];
      match kind {
        case RootFn =>
        case ImageFn =>
          var v := output.GetValue(root);
          i := i[root := v];
          i := GatherRefs(refs, i);
        case PlainFn =>
          i := GatherRefs(refs, i);
      }
    }

    method FunctionRun(kind: FnKind, root: Name, refs: seq<Name>, fn: VertexFn) returns (success: bool, ghost i: Input)
      modifies output
      ensures Gathered(kind, root, refs, old(output.d), i)
      ensures success == fn(i).ok && output.d == old(output.d) + fn(i).outs
    {
      var input := Gather(kind, root, refs);
      i := input;
      var r := fn(input);
      success := r.ok;
      var o := new Kv();
      o.d := r.outs;
      output.Add(o);
    }
  }

  /** Every name that is read has its value in the shared map, or nothing. */
  ghost predicate Gathered(kind: FnKind, root: Name, refs: seq<Name>, out: Output, i: Input) {
    && (kind.RootFn? ==> i == map[])
    && (kind.ImageFn? ==> root in i && forall n :: n in i <==> n == root || n in refs)
    && (kind.PlainFn? ==> forall n :: n in i <==> n in refs)
    && (forall n :: n in i && n in out ==> i[n] == Some(out[n]))
    && (forall n :: n in i && n !in out ==> i[n] == None)
  }

  function FnKindOf(p: Program, v: Vertex): FnKind {
    if v in p.kind then p.kind[v] else PlainFn
  }

  /** The interleaved reads gather the same, and only that. */
  lemma GatheredIff(p: Program, v: Vertex, refs: seq<Name>, out: Output, i: Input)
    requires forall n :: n in refs <==> v in p.refs && n in p.refs[v]
    ensures Gathered(FnKindOf(p, v), p.root, refs, out, i) <==> i == map n | n in Reads(p, v) :: Lookup(out, n)
  {
    var all := map n | n in Reads(p, v) :: Lookup(out, n);
    assert Gathered(FnKindOf(p, v), p.root, refs, out, all);
    if Gathered(FnKindOf(p, v), p.root, refs, out, i) {
      assert i.Keys == all.Keys;
    }
  }

  /** Undisturbed, the reads and the merge of a worker have the effect of FunctionRun. */
  lemma RunsAlone(c: Config, p: Program, s: DState, i: nat, refs: seq<Name>, input: Input)
    returns (acts: seq<DAction>, t: DState)
    requires Busy(s, i) && i !in s.merged && s.input[i] == map[]
    requires forall n :: n in refs <==> s.ex.workers[i].v in p.refs && n in p.refs[s.ex.workers[i].v]
    requires Gathered(FnKindOf(p, s.ex.workers[i].v), p.root, refs, s.out, input)
    ensures DSteps(c, p, s, acts, t) && t.ex == s.ex
    ensures var r := p.fn(s.ex.workers[i].v, input);
            t.out == s.out + r.outs && i in t.merged && t.merged[i] == r.ok
  {
    GatheredIff(p, s.ex.workers[i].v, refs, s.out, input);
    hide Reads, Gathered;
    assert s.input[i].Keys == {};
    var some, m := D.ReadAll(c, p, s, i);
    assert m.input[i] == map n | n in Reads(p, s.ex.workers[i].v) :: Lookup(s.out, n);
    t := DNext(c, p, m, Merge(i));
    D.DStepOne(c, p, m, Merge(i));
    D.DStepsConcat(c, p, s, some, m, [Merge(i)], t);
    acts := some + [Merge(i)];
  }
}
