/** The data side of a run: every vertex function reads the shared output map name by name, computes,
    and merges its own outputs into that map. Whatever the schedule, a complete run leaves the same
    map, the one that the dependency order alone determines. */
module ExecData {
  import opened Graphs
  import opened Executor
  import opened ExecutorSafety
  import opened KeyValue
  import opened Wrappers

  type Name = string
  type Value = Json
  type Input = map<Name, Option<Value>>
  type Output = map<Name, Value>

  datatype FnResult = FnResult(outs: Output, ok: bool)

  /** How a function type gathers its input. */
  datatype FnKind = RootFn | ImageFn | PlainFn

  /** producer maps a variable to the vertex that outputs it; init is the output map before the run,
      which holds the data of the root. */
  datatype Program = Program(
    root: Name,
    init: Output,
    kind: map<Vertex, FnKind>,
    refs: map<Vertex, set<Name>>,
    producer: map<Name, Vertex>,
    fn: (Vertex, Input) -> FnResult)

  function RefsOf(p: Program, v: Vertex): set<Name> {
    if v in p.refs then p.refs[v] else {}
  }

  /** The names that the function of v reads. */
  function Reads(p: Program, v: Vertex): set<Name> {
    match if v in p.kind then p.kind[v] else PlainFn
    case RootFn => {}
    case ImageFn => {p.root} + RefsOf(p, v)
    case PlainFn => RefsOf(p, v)
  }

  /** A function outputs only variables of its own vertex, none of them is there from the start, and
      whoever produces what v reads is joined to v. */
  ghost predicate WellProduced(c: Config, p: Program) {
    && (forall v, i, n :: n in p.fn(v, i).outs ==> n in p.producer && p.producer[n] == v)
    && p.init.Keys !! p.producer.Keys
    && (forall v, n :: v in c.vs && n in Reads(p, v) && n in p.producer ==> Joined(c, p.producer[n], v))
  }

  /** The graph decides whether u has returned when v reads: it has if a path leads from u to v; it has not
      if u is v itself, or below v, or no vertex of this graph. */
  ghost predicate Joined(c: Config, u: Vertex, v: Vertex) {
    u !in c.vs || Reaches(c.es, u, v) || Reaches(c.es, v, u)
  }

  /** u is a proper ancestor of v. */
  ghost predicate Above(c: Config, u: Vertex, v: Vertex) {
    u != v && Reaches(c.es, u, v)
  }

  // ----- what the dependency order determines -----

  /** The result of v on the results of its ancestors. */
  ghost function Eval(c: Config, p: Program, v: Vertex): FnResult
    decreases Ancestry(c.es, v)
  {
    p.fn(v, map n | n in Reads(p, v) ::
      if n in p.init then Some(p.init[n])
      else if n in p.producer && Ancestry(c.es, p.producer[n]) < Ancestry(c.es, v) then
        var r := Eval(c, p, p.producer[n]);
        if n in r.outs then Some(r.outs[n]) else None
      else None)
  }

  /** What the shared map holds for n once the producer of n is done. */
  ghost function Settled(c: Config, p: Program, n: Name): Option<Value> {
    if n in p.init then Some(p.init[n])
    else if n in p.producer && n in Eval(c, p, p.producer[n]).outs then Some(Eval(c, p, p.producer[n]).outs[n])
    else None
  }

  /** What v finds for n: what the producer of n outputs if that is a proper ancestor of v, else nothing. */
  ghost function Finds(c: Config, p: Program, v: Vertex, n: Name): Option<Value> {
    if n in p.init || (n in p.producer && Above(c, p.producer[n], v)) then Settled(c, p, n) else None
  }

  lemma AncestryByReach(es: Edges, u: Vertex, v: Vertex)
    requires Acyclic(es) && Reaches(es, u, v) && u != v
    ensures Ancestry(es, u) < Ancestry(es, v)
  {
    forall x | x in Ancestry(es, u)
      ensures x in Ancestry(es, v)
    {
      ReachMember(es, u, x);
      ReachesTrans(es, x, u, v);
      ReachMember(es, v, x);
    }
    ReachesSelf(es, v);
    ReachMember(es, v, v);
    ReachMember(es, u, v);
    if Reaches(es, v, u) { AntiSymmetric(es, u, v); }
  }

  lemma AboveByAncestry(c: Config, u: Vertex, v: Vertex)
    requires Acyclic(c.es)
    ensures Above(c, u, v) <==> Ancestry(c.es, u) < Ancestry(c.es, v)
  {
    if Above(c, u, v) { AncestryByReach(c.es, u, v); }
    ReachesSelf(c.es, u);
    ReachMember(c.es, u, u);
    ReachMember(c.es, v, u);
  }

  /** Eval is the function of v applied to what v finds. */
  lemma EvalSettled(c: Config, p: Program, v: Vertex)
    requires Acyclic(c.es)
    ensures Eval(c, p, v) == p.fn(v, map n | n in Reads(p, v) :: Finds(c, p, v, n))
  {
    var ins := map n | n in Reads(p, v) ::
      if n in p.init then Some(p.init[n])
      else if n in p.producer && Ancestry(c.es, p.producer[n]) < Ancestry(c.es, v) then
        var r := Eval(c, p, p.producer[n]);
        if n in r.outs then Some(r.outs[n]) else None
      else None;
    forall n | n in Reads(p, v)
      ensures ins[n] == Finds(c, p, v, n)
    {
      if n in p.producer { AboveByAncestry(c, p.producer[n], v); }
    }
    assert ins == map n | n in Reads(p, v) :: Finds(c, p, v, n);
  }

  // ----- the run -----

  /** input[i] is what worker i has read so far; merged[i] says that it has merged its outputs, and with
      which success. */
  datatype DState = DState(ex: State, out: Output, input: map<nat, Input>, merged: map<nat, bool>)

  datatype DAction =
    | Other(a: Action)
    | Start(i: nat)
    | Read(i: nat, n: Name)
    | Merge(i: nat)
    | End(i: nat)

  ghost predicate Busy(s: DState, i: nat) {
    i < |s.ex.workers| && s.ex.workers[i].phase.Running? && i in s.input
  }

  ghost predicate DEnabled(c: Config, p: Program, s: DState, a: DAction) {
    match a
    case Other(b) => !b.RunFn? && !b.EndFn? && Enabled(c, s.ex, b)
    case Start(i) => Enabled(c, s.ex, RunFn(i))
    case Read(i, n) =>
      Busy(s, i) && i !in s.merged && n in Reads(p, s.ex.workers[i].v) && n !in s.input[i]
    case Merge(i) =>
      Busy(s, i) && i !in s.merged && s.input[i].Keys == Reads(p, s.ex.workers[i].v)
    case End(i) => Busy(s, i) && i in s.merged
  }

  ghost function DNext(c: Config, p: Program, s: DState, a: DAction): DState
    requires DEnabled(c, p, s, a)
  {
    match a
    case Other(b) => s.(ex := Next(c, s.ex, b))
    case Start(i) => s.(ex := Next(c, s.ex, RunFn(i)), input := s.input[i := map[]])
    case Read(i, n) =>
      s.(input := s.input[i := s.input[i][n := if n in s.out then Some(s.out[n]) else None]])
    case Merge(i) =>
      var r := p.fn(s.ex.workers[i].v, s.input[i]);
      s.(out := s.out + r.outs, merged := s.merged[i := r.ok])
    case End(i) => s.(ex := Next(c, s.ex, EndFn(i, s.merged[i])))
  }

  ghost predicate DSteps(c: Config, p: Program, s: DState, acts: seq<DAction>, t: DState)
    decreases |acts|
  {
    if acts == [] then s == t
    else DEnabled(c, p, s, acts[0]) && DSteps(c, p, DNext(c, p, s, acts[0]), acts[1..], t)
  }

  ghost function DInit(p: Program): DState {
    DState(Init, p.init, map[], map[])
  }

  ghost predicate DReachable(c: Config, p: Program, s: DState) {
    exists acts :: DSteps(c, p, DInit(p), acts, s)
  }

  // ----- what every run keeps -----

  ghost predicate HasMerged(s: DState, v: Vertex) {
    v in s.ex.owner && s.ex.owner[v] in s.merged
  }

  /** The shared map holds the initial data and the final outputs of the vertices that have merged. */
  ghost predicate OutOK(c: Config, p: Program, s: DState) {
    forall n ::
      (if n in s.out then Some(s.out[n]) else None) ==
      (if n in p.producer && !HasMerged(s, p.producer[n]) then None else Settled(c, p, n))
  }

  ghost predicate InputOK(c: Config, p: Program, s: DState) {
    forall i :: i in s.input && i < |s.ex.workers| ==>
      forall n :: n in s.input[i] ==>
        n in Reads(p, s.ex.workers[i].v) && s.input[i][n] == Finds(c, p, s.ex.workers[i].v, n)
  }

  ghost predicate MergedOK(c: Config, p: Program, s: DState) {
    && (forall i :: i in s.merged ==>
          && i < |s.ex.workers| && Ran(s.ex.workers[i].phase)
          && s.merged[i] == Eval(c, p, s.ex.workers[i].v).ok)
    && (forall i :: i in s.input ==> i < |s.ex.workers| && Ran(s.ex.workers[i].phase))
  }

  ghost predicate ResultsOK(c: Config, p: Program, s: DState) {
    forall v :: HasResult(PhaseOf(s.ex.owner, s.ex.workers, v)) ==>
      HasMerged(s, v) && PhaseOf(s.ex.owner, s.ex.workers, v).ok == Eval(c, p, v).ok
  }

  ghost predicate DInv(c: Config, p: Program, s: DState) {
    Inv(c, s.ex) && OutOK(c, p, s) && InputOK(c, p, s) && MergedOK(c, p, s) && ResultsOK(c, p, s)
  }

  /** Once the function of a vertex has begun, all its proper ancestors have returned. */
  lemma AncestorsReturned(c: Config, s: State, i: nat, u: Vertex)
    requires Inv(c, s) && i < |s.workers| && Ran(s.workers[i].phase)
    requires Reaches(c.es, u, s.workers[i].v) && u != s.workers[i].v
    ensures HasResult(PhaseOf(s.owner, s.workers, u))
  {
    var v := s.workers[i].v;
    assert Started(v) in s.log;
    var j :| 0 <= j < |s.log| && s.log[j] == Started(v);
    var p :| Walk(c.es, u, p, v);
    AncestorsEnded(c, s.log, u, p, v, j);
    assert Ended(u, true) in s.log || Ended(u, false) in s.log;
  }

  /** While the function of v runs, no vertex below v has begun, nor has one outside the graph. */
  lemma BelowNotMerged(c: Config, s: DState, i: nat, u: Vertex)
    requires Inv(c, s.ex) && Busy(s, i) && i !in s.merged
    requires forall k :: k in s.merged ==> k < |s.ex.workers| && Ran(s.ex.workers[k].phase)
    requires u !in c.vs || Reaches(c.es, s.ex.workers[i].v, u)
    ensures !HasMerged(s, u)
  {
    hide GotOnce, GotWasSent, ClosedOK, MainOK, LogOK, TokensOK, BegunOK, WorkersOK;
    OwnOwner(c, s.ex, i);
    if HasMerged(s, u) {
      var k := s.ex.owner[u];
      OwnOwner(c, s.ex, k);
      assert s.ex.workers[k].v == u;
      if u != s.ex.workers[i].v { AncestorsReturned(c, s.ex, k, s.ex.workers[i].v); }
    }
  }

  /** So what it reads is determined. */
  lemma ReadIsSettled(c: Config, p: Program, s: DState, i: nat, n: Name)
    requires WellFormed(c) && WellProduced(c, p) && DInv(c, p, s)
    requires Busy(s, i) && i !in s.merged && n in Reads(p, s.ex.workers[i].v)
    ensures (if n in s.out then Some(s.out[n]) else None) == Finds(c, p, s.ex.workers[i].v, n)
  {
    hide Eval, Inv, Reads;
    var v := s.ex.workers[i].v;
    OwnOwner(c, s.ex, i);
    if n in p.producer {
      assert Joined(c, p.producer[n], v);
      if Above(c, p.producer[n], v) {
        AncestorsReturned(c, s.ex, i, p.producer[n]);
      } else {
        ReachesSelf(c.es, v);
        BelowNotMerged(c, s, i, p.producer[n]);
      }
    }
  }

  lemma OutSame(c: Config, p: Program, s: DState, t: DState)
    requires OutOK(c, p, s) && t.out == s.out && forall v :: HasMerged(t, v) == HasMerged(s, v)
    ensures OutOK(c, p, t)
  {}

  lemma InputSame(c: Config, p: Program, s: DState, t: DState)
    requires InputOK(c, p, s)
    requires forall i :: i in t.input && i < |t.ex.workers| && t.input[i] != map[] ==>
               && i in s.input && t.input[i] == s.input[i]
               && i < |s.ex.workers| && s.ex.workers[i].v == t.ex.workers[i].v
    ensures InputOK(c, p, t)
  {
    forall i, n | i in t.input && i < |t.ex.workers| && n in t.input[i]
      ensures n in Reads(p, t.ex.workers[i].v) && t.input[i][n] == Finds(c, p, t.ex.workers[i].v, n)
    {
      assert t.input[i] != map[];
    }
  }

  /** Phases change for v only, to q; a result that is new has been merged. */
  lemma ResultsSame(c: Config, p: Program, s: DState, t: DState, v: Vertex, q: Phase)
    requires ResultsOK(c, p, s) && OnlyPhase(s.ex, t.ex.owner, t.ex.workers, v, q)
    requires forall x :: HasMerged(s, x) ==> HasMerged(t, x)
    requires HasResult(q) ==> HasMerged(t, v) && q.ok == Eval(c, p, v).ok
    ensures ResultsOK(c, p, t)
  {
    hide PhaseOf, HasMerged, Eval;
  }

  lemma MergedSame(c: Config, p: Program, s: DState, t: DState)
    requires MergedOK(c, p, s) && t.merged == s.merged && |t.ex.workers| >= |s.ex.workers|
    requires forall i :: i in t.input ==> i in s.input || (i < |t.ex.workers| && Ran(t.ex.workers[i].phase))
    requires forall i :: 0 <= i < |s.ex.workers| ==>
               && t.ex.workers[i].v == s.ex.workers[i].v
               && (Ran(s.ex.workers[i].phase) ==> Ran(t.ex.workers[i].phase))
    ensures MergedOK(c, p, t)
  {
    hide Eval, Ran;
  }

  lemma MergedRan(c: Config, p: Program, s: DState, i: nat)
    requires MergedOK(c, p, s)
    ensures i in s.merged || i in s.input ==> i < |s.ex.workers| && Ran(s.ex.workers[i].phase)
    ensures i in s.merged ==> s.merged[i] == Eval(c, p, s.ex.workers[i].v).ok
  {
    hide Eval;
  }

  lemma Owners(c: Config, s: State)
    requires Inv(c, s)
    ensures OwnerOK(s.owner, s.workers) && WorkersOK(c, s.workers) && GotOnce(c, s.workers)
    ensures GotWasSent(c, s.owner, s.workers)
  {}

  /** A worker that has begun its function is the one its vertex has on record. */
  lemma OwnOwner(c: Config, s: State, i: nat)
    requires Inv(c, s) && i < |s.workers| && Ran(s.workers[i].phase)
    ensures var v := s.workers[i].v;
            v in s.owner && s.owner[v] == i && v in c.vs && PhaseOf(s.owner, s.workers, v) == s.workers[i].phase
    ensures forall u :: u in s.owner && s.owner[u] == i ==> u == s.workers[i].v
  {
    hide GotOnce, GotWasSent, ClosedOK, MainOK, LogOK, TokensOK, BegunOK;
    assert WorkerOK(c, s.workers[i]);
  }

  /** The workers of s, and in the same stage of their function, with perhaps some more that wait. */
  ghost predicate SameRuns(s: State, t: State) {
    && t.owner == s.owner && |t.workers| >= |s.workers|
    && (forall i :: 0 <= i < |s.workers| ==> SameRun(s.workers[i], t.workers[i]))
    && (forall i :: |s.workers| <= i < |t.workers| ==> !Ran(t.workers[i].phase))
  }

  lemma SendKeeps(c: Config, s: State, i: nat, j: nat)
    requires Enabled(c, s, Send(i, j))
    ensures SameRuns(s, Next(c, s, Send(i, j)))
  {}

  lemma TraversalKeeps(c: Config, s: State, b: Action)
    requires Enabled(c, s, b) && (b.Begin? ==> s.workers == [])
    requires b.Begin? || b.Look? || b.Visit? || b.MainChoose? || b.MainAll? || b.MainClosed? || b.MainCancelled? ||
             b.Cancel?
    ensures SameRuns(s, Next(c, s, b))
  {}

  lemma WaitKeeps(c: Config, s: State, b: Action)
    requires Enabled(c, s, b) && (b.Choose? || b.GiveUp?)
    ensures SameRuns(s, Next(c, s, b))
  {}

  lemma EmitKeeps(c: Config, s: State, b: Action)
    requires Enabled(c, s, b) && (b.ChooseTo? || b.CloseCh? || b.SentAll?)
    ensures SameRuns(s, Next(c, s, b))
  {}

  lemma ReportKeeps(c: Config, s: State, b: Action)
    requires Enabled(c, s, b) && (b.SendMain? || b.CloseMain?)
    ensures SameRuns(s, Next(c, s, b))
  {}

  /** What a step of the executor other than a start or an end leaves as it was. */
  lemma OtherKeeps(c: Config, s: State, b: Action)
    requires Inv(c, s) && Enabled(c, s, b) && !b.RunFn? && !b.EndFn?
    ensures SameRuns(s, Next(c, s, b))
  {
    hide WorkersOK, GotOnce, OwnerOK, GotWasSent, ClosedOK, MainOK, LogOK, TokensOK, SameRuns, Next;
    if b.Send? {
      SendKeeps(c, s, b.i, b.j);
    } else if b.Begin? || b.Look? || b.Visit? || b.MainChoose? || b.MainAll? || b.MainClosed? ||
      b.MainCancelled? || b.Cancel? {
      if b.Begin? { assert s.workers == []; }
      TraversalKeeps(c, s, b);
    } else if b.Choose? || b.GiveUp? {
      WaitKeeps(c, s, b);
    } else if b.SendMain? || b.CloseMain? {
      ReportKeeps(c, s, b);
    } else {
      EmitKeeps(c, s, b);
    }
  }

  predicate SameRun(w: Worker, x: Worker) {
    && w.v == x.v && Ran(w.phase) == Ran(x.phase)
    && HasResult(w.phase) == HasResult(x.phase) && (HasResult(w.phase) ==> w.phase.ok == x.phase.ok)
  }

  lemma DInvOther(c: Config, p: Program, s: DState, b: Action)
    requires WellFormed(c) && DInv(c, p, s) && DEnabled(c, p, s, Other(b))
    ensures DInv(c, p, DNext(c, p, s, Other(b)))
  {
    hide Inv, Eval, Settled, WellFormed, Enabled, Next, Reads, OutOK, InputOK, MergedOK, WorkersOK, GotOnce, GotWasSent;
    Owners(c, s.ex);
    InvStep(c, s.ex, b);
    OtherKeeps(c, s.ex, b);
    var t := DNext(c, p, s, Other(b));
    assert forall v :: HasMerged(t, v) == HasMerged(s, v);
    forall v | HasResult(PhaseOf(t.ex.owner, t.ex.workers, v))
      ensures HasMerged(t, v) && PhaseOf(t.ex.owner, t.ex.workers, v).ok == Eval(c, p, v).ok
    {
      assert SameRun(s.ex.workers[s.ex.owner[v]], t.ex.workers[s.ex.owner[v]]);
      assert HasResult(PhaseOf(s.ex.owner, s.ex.workers, v));
    }
    OutSame(c, p, s, t);
    assert forall i: nat :: i in s.input ==> i < |s.ex.workers| by { forall i: nat { MergedRan(c, p, s, i); } }
    MergedSame(c, p, s, t);
    InputSame(c, p, s, t);
  }

  lemma AfterStart(c: Config, s: State, i: nat)
    requires Enabled(c, s, RunFn(i))
    ensures i < |s.workers| && s.workers[i].phase == Collect({})
    ensures var t := Next(c, s, RunFn(i));
            var v := s.workers[i].v;
            t.workers == s.workers[i := Worker(v, Running)] && t.owner == s.owner[v := i]
  {}

  lemma AfterEnd(c: Config, s: State, i: nat, ok: bool)
    requires i < |s.workers| && s.workers[i].phase.Running?
    ensures Enabled(c, s, EndFn(i, ok))
    ensures var t := Next(c, s, EndFn(i, ok));
            var v := s.workers[i].v;
            t.workers == s.workers[i := Worker(v, Emit(ok, Downs(c.es, v)))] && t.owner == s.owner
  {}

  lemma DInvStart(c: Config, p: Program, s: DState, i: nat)
    requires WellFormed(c) && DInv(c, p, s) && DEnabled(c, p, s, Start(i))
    ensures DInv(c, p, DNext(c, p, s, Start(i)))
  {
    hide Inv, Eval, Settled, WellFormed, Reads, OutOK, InputOK, ResultsOK, PhaseOf;
    hide OwnerOK, WorkersOK, GotOnce, GotWasSent, Enabled, Next, MergedOK;
    AfterStart(c, s.ex, i);
    InvStep(c, s.ex, RunFn(i));
    StartParts(c, s.ex, i);
    var t := DNext(c, p, s, Start(i));
    MergedRan(c, p, s, i);
    MergedSame(c, p, s, t);
    assert forall v :: HasMerged(t, v) == HasMerged(s, v);
    OutSame(c, p, s, t);
    InputSame(c, p, s, t);
    ResultsSame(c, p, s, t, s.ex.workers[i].v, Running);
  }

  lemma DInvRead(c: Config, p: Program, s: DState, i: nat, n: Name)
    requires WellFormed(c) && WellProduced(c, p) && DInv(c, p, s) && DEnabled(c, p, s, Read(i, n))
    ensures DInv(c, p, DNext(c, p, s, Read(i, n)))
  {
    hide Inv, Eval, Settled, Finds, WellFormed, WellProduced, Reads, OutOK;
    ReadIsSettled(c, p, s, i, n);
    var t := DNext(c, p, s, Read(i, n));
    assert forall v :: HasMerged(t, v) == HasMerged(s, v);
    OutSame(c, p, s, t);
  }

  /** With all its input read, a function computes its final result. */
  lemma MergeIsEval(c: Config, p: Program, s: DState, i: nat)
    requires Acyclic(c.es) && WellProduced(c, p) && DInv(c, p, s) && DEnabled(c, p, s, Merge(i))
    ensures p.fn(s.ex.workers[i].v, s.input[i]) == Eval(c, p, s.ex.workers[i].v)
  {
    hide Inv, Eval, Reads, Acyclic, WellProduced, Settled, Finds;
    OwnOwner(c, s.ex, i);
    var v := s.ex.workers[i].v;
    EvalSettled(c, p, v);
    assert s.input[i] == map n | n in Reads(p, v) :: Finds(c, p, v, n);
  }

  lemma MergeOut(c: Config, p: Program, s: DState, t: DState, v: Vertex)
    requires WellProduced(c, p) && OutOK(c, p, s) && !HasMerged(s, v)
    requires t.out == s.out + Eval(c, p, v).outs && forall u :: HasMerged(t, u) == (HasMerged(s, u) || u == v)
    requires exists i :: Eval(c, p, v) == p.fn(v, i)
    ensures OutOK(c, p, t)
  {
    hide HasMerged, Eval, Joined, Reads;
  }

  lemma DInvMerge(c: Config, p: Program, s: DState, i: nat)
    requires Acyclic(c.es) && WellProduced(c, p) && DInv(c, p, s) && DEnabled(c, p, s, Merge(i))
    ensures DInv(c, p, DNext(c, p, s, Merge(i)))
  {
    hide Inv, Eval, Reads, Acyclic, InputOK, OutOK, WellProduced;
    OwnOwner(c, s.ex, i);
    MergeIsEval(c, p, s, i);
    var v, t := s.ex.workers[i].v, DNext(c, p, s, Merge(i));
    assert forall u :: HasMerged(t, u) == (HasMerged(s, u) || u == v);
    InputSame(c, p, s, t);
    MergeOut(c, p, s, t, v);
  }

  lemma DInvEnd(c: Config, p: Program, s: DState, i: nat)
    requires WellFormed(c) && DInv(c, p, s) && DEnabled(c, p, s, End(i))
    ensures DInv(c, p, DNext(c, p, s, End(i)))
  {
    hide Inv, Eval, Settled, WellFormed, Reads, OutOK, InputOK, ResultsOK, MergedOK, WorkersOK, GotOnce, GotWasSent;
    hide Enabled, Next;
    Owners(c, s.ex);
    AfterEnd(c, s.ex, i, s.merged[i]);
    InvStep(c, s.ex, EndFn(i, s.merged[i]));
    var t := DNext(c, p, s, End(i));
    MergedRan(c, p, s, i);
    MergedSame(c, p, s, t);
    assert forall v :: HasMerged(t, v) == HasMerged(s, v);
    OutSame(c, p, s, t);
    InputSame(c, p, s, t);
    Working(s.ex.owner, s.ex.workers, i, t.ex.workers[i].phase);
    OwnOwner(c, s.ex, i);
    ResultsSame(c, p, s, t, s.ex.workers[i].v, t.ex.workers[i].phase);
  }

  lemma {:induction false} DInvSteps(c: Config, p: Program, s: DState, acts: seq<DAction>, t: DState)
    requires WellFormed(c) && Acyclic(c.es) && WellProduced(c, p) && DInv(c, p, s) && DSteps(c, p, s, acts, t)
    ensures DInv(c, p, t)
    decreases |acts|
  {
    hide DInv, DNext, WellFormed, WellProduced;
    if acts != [] {
      var a := acts[0];
      match a {
        case Other(b) => DInvOther(c, p, s, b);
        case Start(i) => DInvStart(c, p, s, i);
        case Read(i, n) => DInvRead(c, p, s, i, n);
        case Merge(i) => DInvMerge(c, p, s, i);
        case End(i) => DInvEnd(c, p, s, i);
      }
      DInvSteps(c, p, DNext(c, p, s, a), acts[1..], t);
    }
  }

  lemma DInvReachable(c: Config, p: Program, s: DState)
    requires WellFormed(c) && Acyclic(c.es) && WellProduced(c, p) && DReachable(c, p, s)
    ensures DInv(c, p, s)
  {
    assert DInv(c, p, DInit(p));
    var acts :| DSteps(c, p, DInit(p), acts, s);
    DInvSteps(c, p, DInit(p), acts, s);
  }

  // ----- main results -----

  /** Forgetting the data, a run is a run of the executor, so all that holds of those holds here. */
  lemma {:induction false} Forget(c: Config, p: Program, s: DState, acts: seq<DAction>, t: DState, base: seq<Action>)
    requires DSteps(c, p, s, acts, t) && Steps(c, Init, base, s.ex)
    ensures Reachable(c, t.ex)
    decreases |acts|
  {
    hide Enabled, Next, Reads;
    if acts != [] {
      var next := DNext(c, p, s, acts[0]);
      match acts[0]
      case Other(b) => StepsSnoc(c, Init, base, s.ex, b); Forget(c, p, next, acts[1..], t, base + [b]);
      case Start(i) => StepsSnoc(c, Init, base, s.ex, RunFn(i)); Forget(c, p, next, acts[1..], t, base + [RunFn(i)]);
      case End(i) =>
        var b := EndFn(i, s.merged[i]);
        AfterEnd(c, s.ex, i, s.merged[i]);
        StepsSnoc(c, Init, base, s.ex, b);
        Forget(c, p, next, acts[1..], t, base + [b]);
      case _ => Forget(c, p, next, acts[1..], t, base);
    }
  }

  lemma DataRunIsRun(c: Config, p: Program, s: DState)
    requires DReachable(c, p, s)
    ensures Reachable(c, s.ex)
  {
    var acts :| DSteps(c, p, DInit(p), acts, s);
    assert Steps(c, Init, [], Init);
    Forget(c, p, DInit(p), acts, s, []);
  }

  /** Every input a function has read is what its producer finally outputs, whenever it was read, and
      nothing if the producer is no ancestor. */
  lemma ReadsSeeProducers(c: Config, p: Program, s: DState, i: nat, n: Name)
    requires WellFormed(c) && Acyclic(c.es) && WellProduced(c, p) && DReachable(c, p, s)
    requires i in s.input && n in s.input[i]
    ensures i < |s.ex.workers|
    ensures n in p.init ==> s.input[i][n] == Some(p.init[n])
    ensures n in p.producer ==>
              var u := p.producer[n];
              if Above(c, u, s.ex.workers[i].v) then
                && HasResult(PhaseOf(s.ex.owner, s.ex.workers, u))
                && s.input[i][n] == (if n in Eval(c, p, u).outs then Some(Eval(c, p, u).outs[n]) else None)
                && (n in s.out <==> s.input[i][n].Some?) && (n in s.out ==> s.input[i][n] == Some(s.out[n]))
              else s.input[i][n].None?
  {
    hide Inv, Eval, Reads, Acyclic, WellFormed, DReachable;
    DInvReachable(c, p, s);
    if n in p.producer {
      OwnOwner(c, s.ex, i);
      if Above(c, p.producer[n], s.ex.workers[i].v) {
        AncestorsReturned(c, s.ex, i, p.producer[n]);
      }
    }
  }

  /** The run is over: every vertex function has returned. */
  ghost predicate Complete(c: Config, s: DState) {
    forall v :: v in c.vs ==> HasResult(PhaseOf(s.ex.owner, s.ex.workers, v))
  }

  /** Entries of the shared map never change once there, and a complete run has them all. */
  lemma OutIsFinal(c: Config, p: Program, s: DState, n: Name)
    requires WellFormed(c) && Acyclic(c.es) && WellProduced(c, p) && DReachable(c, p, s)
    ensures n in s.out ==> Some(s.out[n]) == Settled(c, p, n)
    ensures Complete(c, s) && (n in p.producer ==> p.producer[n] in c.vs) ==>
              (if n in s.out then Some(s.out[n]) else None) == Settled(c, p, n)
  {
    DInvReachable(c, p, s);
  }

  lemma OutsideNeverMerges(c: Config, p: Program, s: DState, v: Vertex)
    requires DInv(c, p, s) && v !in c.vs
    ensures !HasMerged(s, v)
  {
    assert forall i :: 0 <= i < |s.ex.workers| ==> WorkerOK(c, s.ex.workers[i]);
  }

  /** Any two complete runs end with the same output map and the same result of each vertex. */
  lemma ScheduleIndependent(c: Config, p: Program, s: DState, t: DState)
    requires WellFormed(c) && Acyclic(c.es) && WellProduced(c, p)
    requires DReachable(c, p, s) && DReachable(c, p, t) && Complete(c, s) && Complete(c, t)
    ensures s.out == t.out
    ensures forall v :: v in c.vs ==>
              PhaseOf(s.ex.owner, s.ex.workers, v).ok == PhaseOf(t.ex.owner, t.ex.workers, v).ok == Eval(c, p, v).ok
  {
    hide Inv, Eval, Settled, Reads, Acyclic, WellFormed, DReachable, WellProduced, Ran;
    DInvReachable(c, p, s);
    DInvReachable(c, p, t);
    forall n
      ensures (if n in s.out then Some(s.out[n]) else None) == (if n in t.out then Some(t.out[n]) else None)
    {
      if n in p.producer && p.producer[n] !in c.vs {
        OutsideNeverMerges(c, p, s, p.producer[n]);
        OutsideNeverMerges(c, p, t, p.producer[n]);
      }
    }
    forall n
      ensures n in s.out <==> n in t.out
      ensures n in s.out ==> s.out[n] == t.out[n]
    {
      assert (if n in s.out then Some(s.out[n]) else None) == (if n in t.out then Some(t.out[n]) else None);
    }
  }

  /** Uncancelled, the verdict of a run is whether every function succeeds on its final input; and
      a successful run is complete. */
  lemma OutcomeDetermined(c: Config, p: Program, s: DState)
    requires WellFormed(c) && Acyclic(c.es) && WellProduced(c, p)
    requires DReachable(c, p, s) && s.ex.main.Returned?
    ensures s.ex.main.success ==> Complete(c, s)
    ensures !s.ex.cancelled ==> (s.ex.main.success <==> forall v :: v in c.vs ==> Eval(c, p, v).ok)
  {
    hide Eval, Settled, Reads, Acyclic, WellFormed, DReachable, WellProduced, OutOK, InputOK;
    hide TokensOK, BegunOK, WorkersOK, GotOnce, GotWasSent, ClosedOK, LogOK;
    DInvReachable(c, p, s);
    if !s.ex.main.success && !s.ex.cancelled {
      var v :| v in c.vs && Failed(s.ex.owner, s.ex.workers, v);
      assert !Eval(c, p, v).ok;
    }
  }
}
