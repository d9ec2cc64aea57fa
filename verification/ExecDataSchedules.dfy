/** Which reads depend on the schedule: those whose producer and reader are joined by no path, and no others. */
module ExecDataSchedules {
  import opened Graphs
  import opened Executor
  import opened ExecutorSafety
  import opened ExecutorRuns
  import opened ExecutorSchedules
  import opened ExecData
  import opened Wrappers

  ghost predicate Succeeds(p: Program) {
    forall v, i :: p.fn(v, i).ok
  }

  /** No other vertex than u outputs n. */
  ghost predicate OnlyFrom(p: Program, u: Vertex, n: Name) {
    n !in p.init && forall v, i :: n in p.fn(v, i).outs ==> v == u
  }

  /** u alone outputs n, always. */
  ghost predicate Sole(p: Program, u: Vertex, n: Name) {
    n !in p.init && forall v, i :: n in p.fn(v, i).outs <==> v == u
  }

  ghost predicate HasEndedFn(ws: seq<Worker>, u: Vertex) {
    exists k :: 0 <= k < |ws| && ws[k].v == u && HasResult(ws[k].phase)
  }

  /** A running function has read nothing yet, one that returned has merged, and what a vertex alone
      outputs is in the shared map from the time it has returned. */
  ghost predicate Lazy(p: Program, s: DState) {
    && (forall k :: 0 <= k < |s.ex.workers| && s.ex.workers[k].phase.Running? ==> k in s.input && s.input[k] == map[])
    && (forall k :: k in s.merged ==> k < |s.ex.workers| && HasResult(s.ex.workers[k].phase))
    && (forall u, n :: Sole(p, u, n) ==> (n in s.out <==> HasEndedFn(s.ex.workers, u)))
  }

  lemma DStepOne(c: Config, p: Program, s: DState, a: DAction)
    requires DEnabled(c, p, s, a)
    ensures DSteps(c, p, s, [a], DNext(c, p, s, a))
  {
    assert DSteps(c, p, DNext(c, p, s, a), [a][1..], DNext(c, p, s, a));
  }

  lemma {:induction false} DStepsConcat(c: Config, p: Program, s: DState, a: seq<DAction>, m: DState, b: seq<DAction>,
                                        t: DState)
    requires DSteps(c, p, s, a, m) && DSteps(c, p, m, b, t)
    ensures DSteps(c, p, s, a + b, t)
    decreases |a|
  {
    hide DEnabled, DNext;
    if a == [] {
      assert a + b == b;
    } else {
      DStepsConcat(c, p, DNext(c, p, s, a[0]), a[1..], m, b, t);
      assert (a + b)[1..] == a[1..] + b;
    }
  }

  lemma {:induction false} ReadAll(c: Config, p: Program, s: DState, i: nat) returns (acts: seq<DAction>, t: DState)
    requires Busy(s, i) && i !in s.merged && s.input[i].Keys <= Reads(p, s.ex.workers[i].v)
    ensures DSteps(c, p, s, acts, t) && i in t.input && t.input[i].Keys == Reads(p, s.ex.workers[i].v)
    ensures t == s.(input := t.input) && forall k :: k != i && k in s.input ==> k in t.input && t.input[k] == s.input[k]
    ensures forall n :: n in t.input[i] ==>
              t.input[i][n] == if n in s.input[i] then s.input[i][n] else if n in s.out then Some(s.out[n]) else None
    decreases Reads(p, s.ex.workers[i].v) - s.input[i].Keys
  {
    hide Reads;
    if n :| n in Reads(p, s.ex.workers[i].v) && n !in s.input[i] {
      var m := DNext(c, p, s, Read(i, n));
      assert m.input[i].Keys == s.input[i].Keys + {n} && m.ex == s.ex;
      assert n in Reads(p, s.ex.workers[i].v) - s.input[i].Keys;
      var more;
      more, t := ReadAll(c, p, m, i);
      DStepOne(c, p, s, Read(i, n));
      DStepsConcat(c, p, s, [Read(i, n)], m, more, t);
      acts := [Read(i, n)] + more;
    } else {
      acts, t := [], s;
    }
  }

  /** A function reads all it needs, merges and returns. */
  lemma Finish(c: Config, p: Program, s: DState, i: nat) returns (acts: seq<DAction>, t: DState)
    requires Succeeds(p) && Lazy(p, s) && i < |s.ex.workers| && s.ex.workers[i].phase.Running?
    ensures DSteps(c, p, s, acts, t) && Enabled(c, s.ex, EndFn(i, true))
    ensures t.ex == Next(c, s.ex, EndFn(i, true)) && Lazy(p, t)
  {
    hide Reads, Enabled, Next, DSteps;
    assert s.input[i].Keys == {};
    var some, m := ReadAll(c, p, s, i);
    var r := DNext(c, p, m, Merge(i));
    t := DNext(c, p, r, End(i));
    DStepOne(c, p, m, Merge(i));
    DStepOne(c, p, r, End(i));
    DStepsConcat(c, p, s, some, m, [Merge(i)], r);
    DStepsConcat(c, p, s, some + [Merge(i)], r, [End(i)], t);
    acts := some + [Merge(i)] + [End(i)];
    AfterEnd(c, s.ex, i, true);
    LazyAfterEnd(p, s, t, i);
  }

  lemma LazyAfterEnd(p: Program, s: DState, t: DState, i: nat)
    requires Succeeds(p) && Lazy(p, s) && i < |s.ex.workers| && i < |t.ex.workers|
    requires t.ex.workers == s.ex.workers[i := t.ex.workers[i]] && t.ex.workers[i].v == s.ex.workers[i].v
    requires HasResult(t.ex.workers[i].phase) && t.merged.Keys == s.merged.Keys + {i}
    requires exists m :: t.out == s.out + p.fn(s.ex.workers[i].v, m).outs
    requires forall k :: k != i && k in s.input ==> k in t.input && t.input[k] == s.input[k]
    ensures Lazy(p, t)
  {
    hide HasEndedFn;
    forall u, n | Sole(p, u, n)
      ensures n in t.out <==> HasEndedFn(t.ex.workers, u)
    {
      EndedAfter(s.ex.workers, t.ex.workers, i, u);
    }
  }

  lemma EndedAfter(ws: seq<Worker>, us: seq<Worker>, i: nat, u: Vertex)
    requires i < |ws| && |us| == |ws| && us[i].v == ws[i].v && HasResult(us[i].phase)
    requires forall k :: 0 <= k < |ws| && k != i ==> us[k] == ws[k]
    ensures HasEndedFn(us, u) <==> HasEndedFn(ws, u) || ws[i].v == u
  {
    if HasEndedFn(ws, u) {
      var k :| 0 <= k < |ws| && ws[k].v == u && HasResult(ws[k].phase);
      assert us[k].v == u && HasResult(us[k].phase);
    }
  }

  lemma EndedSame(ws: seq<Worker>, us: seq<Worker>, u: Vertex)
    requires |us| >= |ws| && forall k :: 0 <= k < |ws| ==> SameRun(ws[k], us[k])
    requires forall k :: |ws| <= k < |us| ==> !Ran(us[k].phase)
    ensures HasEndedFn(us, u) <==> HasEndedFn(ws, u)
  {
    if HasEndedFn(ws, u) {
      var k :| 0 <= k < |ws| && ws[k].v == u && HasResult(ws[k].phase);
      assert SameRun(ws[k], us[k]) && us[k].v == u && HasResult(us[k].phase);
    }
    if HasEndedFn(us, u) {
      var k :| 0 <= k < |us| && us[k].v == u && HasResult(us[k].phase);
      assert SameRun(ws[k], us[k]) && ws[k].v == u && HasResult(ws[k].phase);
    }
  }

  lemma LazyOther(c: Config, p: Program, s: DState, b: Action)
    requires Inv(c, s.ex) && Lazy(p, s) && DEnabled(c, p, s, Other(b))
    ensures Lazy(p, DNext(c, p, s, Other(b)))
  {
    hide Inv, Enabled, Next, HasEndedFn;
    OtherKeeps(c, s.ex, b);
    var t := DNext(c, p, s, Other(b));
    forall u, n | Sole(p, u, n)
      ensures n in t.out <==> HasEndedFn(t.ex.workers, u)
    {
      EndedSame(s.ex.workers, t.ex.workers, u);
    }
    forall k | 0 <= k < |t.ex.workers| && t.ex.workers[k].phase.Running?
      ensures k in t.input && t.input[k] == map[]
    {
      assert SameRun(s.ex.workers[k], t.ex.workers[k]);
    }
    forall k | k in t.merged
      ensures k < |t.ex.workers| && HasResult(t.ex.workers[k].phase)
    {
      assert SameRun(s.ex.workers[k], t.ex.workers[k]);
    }
  }

  lemma LazyStart(c: Config, p: Program, s: DState, i: nat)
    requires Lazy(p, s) && DEnabled(c, p, s, Start(i))
    ensures Lazy(p, DNext(c, p, s, Start(i)))
  {
    hide Enabled, Next;
    AfterStart(c, s.ex, i);
    var t := DNext(c, p, s, Start(i));
    forall u, n | Sole(p, u, n)
      ensures n in t.out <==> HasEndedFn(t.ex.workers, u)
    {
      if HasEndedFn(s.ex.workers, u) {
        var k :| 0 <= k < |s.ex.workers| && s.ex.workers[k].v == u && HasResult(s.ex.workers[k].phase);
        assert t.ex.workers[k] == s.ex.workers[k];
      }
      if HasEndedFn(t.ex.workers, u) {
        var k :| 0 <= k < |t.ex.workers| && t.ex.workers[k].v == u && HasResult(t.ex.workers[k].phase);
        assert t.ex.workers[k] == s.ex.workers[k];
      }
    }
  }

  lemma {:induction false} LogGrows(c: Config, s: State, acts: seq<Action>, t: State)
    requires Steps(c, s, acts, t)
    ensures s.log <= t.log
    decreases |acts|
  {
    if acts != [] {
      LogGrows(c, Next(c, s, acts[0]), acts[1..], t);
      assert s.log <= Next(c, s, acts[0]).log;
    }
  }

  lemma EndRecorded(c: Config, s: State, a: Action, log: seq<Event>)
    requires a.EndFn? && Enabled(c, s, a) && Next(c, s, a).log <= log
    requires forall e :: e in log && e.Ended? ==> e.ok
    ensures a.ok
  {
    var v := s.workers[a.i].v;
    assert Next(c, s, a).log[|s.log|] == Ended(v, a.ok);
    assert log[|s.log|] == Ended(v, a.ok);
  }

  /** Every run of the executor in which all functions succeed is the run of a program. */
  lemma {:induction false} Lift(c: Config, p: Program, s: DState, acts: seq<Action>, x: State)
    returns (dacts: seq<DAction>, t: DState)
    requires WellFormed(c) && Inv(c, s.ex) && Succeeds(p) && Lazy(p, s) && Steps(c, s.ex, acts, x)
    requires forall e :: e in x.log && e.Ended? ==> e.ok
    ensures DSteps(c, p, s, dacts, t) && t.ex == x && Lazy(p, t)
    decreases |acts|
  {
    hide Lazy, Inv, Succeeds, WellFormed;
    if acts == [] {
      dacts, t := [], s;
    } else {
      var a := acts[0];
      LogGrows(c, Next(c, s.ex, a), acts[1..], x);
      if a.EndFn? { EndRecorded(c, s.ex, a, x.log); }
      var some, m := LiftOne(c, p, s, a);
      InvStep(c, s.ex, a);
      var more;
      more, t := Lift(c, p, m, acts[1..], x);
      DStepsConcat(c, p, s, some, m, more, t);
      dacts := some + more;
    }
  }

  lemma LiftOne(c: Config, p: Program, s: DState, a: Action)
    returns (dacts: seq<DAction>, t: DState)
    requires WellFormed(c) && Inv(c, s.ex) && Succeeds(p) && Lazy(p, s) && Enabled(c, s.ex, a)
    requires a.EndFn? ==> a.ok
    ensures DSteps(c, p, s, dacts, t) && t.ex == Next(c, s.ex, a) && Lazy(p, t)
  {
    hide Lazy, Inv, Succeeds, WellFormed, Next;
    if a.EndFn? {
      dacts, t := Finish(c, p, s, a.i);
    } else if a.RunFn? {
      dacts, t := [Start(a.i)], DNext(c, p, s, Start(a.i));
      DStepOne(c, p, s, Start(a.i));
      LazyStart(c, p, s, a.i);
    } else {
      dacts, t := [Other(a)], DNext(c, p, s, Other(a));
      DStepOne(c, p, s, Other(a));
      LazyOther(c, p, s, a);
    }
  }

  lemma LiftRun(c: Config, p: Program, acts: seq<Action>, x: State) returns (t: DState)
    requires WellFormed(c) && Succeeds(p) && Steps(c, Init, acts, x) && Calm(x)
    ensures DReachable(c, p, t) && t.ex == x && Lazy(p, t)
  {
    InitOK(c);
    assert Lazy(p, DInit(p));
    var dacts;
    dacts, t := Lift(c, p, DInit(p), acts, x);
  }

  lemma DReachableStep(c: Config, p: Program, s: DState, a: DAction)
    requires DReachable(c, p, s) && DEnabled(c, p, s, a)
    ensures DReachable(c, p, DNext(c, p, s, a))
  {
    var acts :| DSteps(c, p, DInit(p), acts, s);
    DStepOne(c, p, s, a);
    DStepsConcat(c, p, DInit(p), acts, s, [a], DNext(c, p, s, a));
  }

  /** A worker of v has read n, and whether it found a value is found. */
  ghost predicate HasRead(s: DState, v: Vertex, n: Name, found: bool) {
    exists i :: i in s.input && i < |s.ex.workers| && s.ex.workers[i].v == v && n in s.input[i] &&
      s.input[i][n].Some? == found
  }

  /** Some run lets v find n, or lets v miss it. */
  ghost predicate CanRead(c: Config, p: Program, v: Vertex, n: Name, found: bool) {
    exists s :: DReachable(c, p, s) && HasRead(s, v, n, found)
  }

  // ----- what no run lets a reader find -----

  /** Who has read or merged has begun, and who has returned has merged. */
  ghost predicate Booked(s: DState) {
    && (forall k :: k in s.merged || k in s.input ==> k < |s.ex.workers| && Ran(s.ex.workers[k].phase))
    && (forall x :: HasResult(PhaseOf(s.ex.owner, s.ex.workers, x)) ==> HasMerged(s, x))
  }

  /** n is in the shared map only if u has merged, and if u always outputs it, also then. */
  ghost predicate OutTracked(p: Program, s: DState, u: Vertex, n: Name) {
    (n in s.out ==> HasMerged(s, u)) && (Sole(p, u, n) && HasMerged(s, u) ==> n in s.out)
  }

  ghost predicate ReadTracked(c: Config, p: Program, u: Vertex, v: Vertex, n: Name, value: Option<Value>) {
    if value.Some? then u in c.vs && !Reaches(c.es, v, u) else Sole(p, u, n) ==> !Above(c, u, v)
  }

  ghost predicate ReadsTracked(c: Config, p: Program, s: DState, u: Vertex, v: Vertex, n: Name) {
    forall i :: i in s.input && i < |s.ex.workers| && s.ex.workers[i].v == v && n in s.input[i] ==>
      ReadTracked(c, p, u, v, n, s.input[i][n])
  }

  ghost predicate Tracked(c: Config, p: Program, s: DState, u: Vertex, v: Vertex, n: Name) {
    Inv(c, s.ex) && Booked(s) && OutTracked(p, s, u, n) && ReadsTracked(c, p, s, u, v, n)
  }

  lemma BookedOther(c: Config, p: Program, s: DState, b: Action)
    requires WellFormed(c) && Inv(c, s.ex) && Booked(s) && DEnabled(c, p, s, Other(b))
    ensures var t := DNext(c, p, s, Other(b));
            && Inv(c, t.ex) && Booked(t) && (forall x :: HasMerged(t, x) == HasMerged(s, x))
            && forall i :: i in t.input ==> i < |s.ex.workers| && t.ex.workers[i].v == s.ex.workers[i].v
  {
    hide Inv, Enabled, Next, WorkersOK, GotOnce, GotWasSent;
    Owners(c, s.ex);
    InvStep(c, s.ex, b);
    OtherKeeps(c, s.ex, b);
    var t := DNext(c, p, s, Other(b));
    forall k | k in t.merged || k in t.input
      ensures k < |t.ex.workers| && Ran(t.ex.workers[k].phase) && t.ex.workers[k].v == s.ex.workers[k].v
    {
      assert SameRun(s.ex.workers[k], t.ex.workers[k]);
    }
    forall x | HasResult(PhaseOf(t.ex.owner, t.ex.workers, x))
      ensures HasMerged(t, x)
    {
      assert SameRun(s.ex.workers[s.ex.owner[x]], t.ex.workers[s.ex.owner[x]]);
      assert HasResult(PhaseOf(s.ex.owner, s.ex.workers, x));
    }
  }

  lemma TrackedOther(c: Config, p: Program, s: DState, b: Action, u: Vertex, v: Vertex, n: Name)
    requires WellFormed(c) && Tracked(c, p, s, u, v, n) && DEnabled(c, p, s, Other(b))
    ensures Tracked(c, p, DNext(c, p, s, Other(b)), u, v, n)
  {
    hide Inv, Booked, HasMerged, Enabled, Next, Sole, ReadTracked;
    BookedOther(c, p, s, b);
  }

  lemma TrackedStart(c: Config, p: Program, s: DState, i: nat, u: Vertex, v: Vertex, n: Name)
    requires WellFormed(c) && Tracked(c, p, s, u, v, n) && DEnabled(c, p, s, Start(i))
    ensures Tracked(c, p, DNext(c, p, s, Start(i)), u, v, n)
  {
    hide Inv, Enabled, Next, Sole, ReadTracked, OwnerOK, WorkersOK, GotOnce, GotWasSent;
    AfterStart(c, s.ex, i);
    InvStep(c, s.ex, RunFn(i));
    StartParts(c, s.ex, i);
    var t := DNext(c, p, s, Start(i));
    assert forall x :: HasMerged(t, x) == HasMerged(s, x);
  }

  /** An end makes one result more, that of the vertex of worker i. */
  lemma ResultsAfterEnd(c: Config, s: State, i: nat, ok: bool)
    requires WellFormed(c) && Inv(c, s) && i < |s.workers| && s.workers[i].phase.Running?
    ensures Enabled(c, s, EndFn(i, ok))
    ensures var t, v := Next(c, s, EndFn(i, ok)), s.workers[i].v;
            && Inv(c, t) && t.owner == s.owner && v in s.owner && s.owner[v] == i
            && |t.workers| == |s.workers|
            && (forall k :: 0 <= k < |s.workers| ==>
                  t.workers[k].v == s.workers[k].v && (Ran(s.workers[k].phase) ==> Ran(t.workers[k].phase)))
            && forall x :: HasResult(PhaseOf(t.owner, t.workers, x)) ==>
              x == v || HasResult(PhaseOf(s.owner, s.workers, x))
  {
    hide Inv, Enabled, Next, OwnerOK, WorkersOK, GotOnce, GotWasSent;
    AfterEnd(c, s, i, ok);
    InvStep(c, s, EndFn(i, ok));
    OwnOwner(c, s, i);
  }

  lemma BookedEnd(c: Config, p: Program, s: DState, i: nat)
    requires WellFormed(c) && Inv(c, s.ex) && Booked(s) && DEnabled(c, p, s, End(i))
    ensures var t := DNext(c, p, s, End(i));
            && Inv(c, t.ex) && Booked(t) && (forall x :: HasMerged(t, x) == HasMerged(s, x))
            && |t.ex.workers| == |s.ex.workers|
            && forall k :: 0 <= k < |s.ex.workers| ==> t.ex.workers[k].v == s.ex.workers[k].v
  {
    hide Inv, Enabled, Next, PhaseOf;
    ResultsAfterEnd(c, s.ex, i, s.merged[i]);
  }

  lemma TrackedEnd(c: Config, p: Program, s: DState, i: nat, u: Vertex, v: Vertex, n: Name)
    requires WellFormed(c) && Tracked(c, p, s, u, v, n) && DEnabled(c, p, s, End(i))
    ensures Tracked(c, p, DNext(c, p, s, End(i)), u, v, n)
  {
    hide Inv, Booked, HasMerged, Enabled, Next, Sole, ReadTracked;
    BookedEnd(c, p, s, i);
  }

  lemma TrackedMerge(c: Config, p: Program, s: DState, i: nat, u: Vertex, v: Vertex, n: Name)
    requires Tracked(c, p, s, u, v, n) && OnlyFrom(p, u, n) && DEnabled(c, p, s, Merge(i))
    ensures Tracked(c, p, DNext(c, p, s, Merge(i)), u, v, n)
  {
    hide Inv, Reads, ReadTracked;
    OwnOwner(c, s.ex, i);
    var w, t := s.ex.workers[i].v, DNext(c, p, s, Merge(i));
    assert forall x :: HasMerged(t, x) == (HasMerged(s, x) || x == w);
  }

  lemma TrackedRead(c: Config, p: Program, s: DState, i: nat, m: Name, u: Vertex, v: Vertex, n: Name)
    requires Tracked(c, p, s, u, v, n) && DEnabled(c, p, s, Read(i, m))
    ensures Tracked(c, p, DNext(c, p, s, Read(i, m)), u, v, n)
  {
    hide Inv, Reads, Sole, Above;
    var t := DNext(c, p, s, Read(i, m));
    assert forall x :: HasMerged(t, x) == HasMerged(s, x);
    if m == n && s.ex.workers[i].v == v {
      ReadIsTracked(c, p, s, i, u, n);
    }
  }

  lemma ReadIsTracked(c: Config, p: Program, s: DState, i: nat, u: Vertex, n: Name)
    requires Inv(c, s.ex) && Booked(s) && OutTracked(p, s, u, n) && Busy(s, i) && i !in s.merged
    ensures ReadTracked(c, p, u, s.ex.workers[i].v, n, if n in s.out then Some(s.out[n]) else None)
  {
    hide Inv, Sole;
    var v := s.ex.workers[i].v;
    if n in s.out {
      if u !in c.vs || Reaches(c.es, v, u) { BelowNotMerged(c, s, i, u); }
    } else if Above(c, u, v) {
      AncestorsReturned(c, s.ex, i, u);
    }
  }

  lemma {:induction false} TrackedSteps(c: Config, p: Program, s: DState, acts: seq<DAction>, t: DState,
                                        u: Vertex, v: Vertex, n: Name)
    requires WellFormed(c) && OnlyFrom(p, u, n) && Tracked(c, p, s, u, v, n) && DSteps(c, p, s, acts, t)
    ensures Tracked(c, p, t, u, v, n)
    decreases |acts|
  {
    hide Tracked, DNext, WellFormed, OnlyFrom;
    if acts != [] {
      var a := acts[0];
      match a {
        case Other(b) => TrackedOther(c, p, s, b, u, v, n);
        case Start(i) => TrackedStart(c, p, s, i, u, v, n);
        case Read(i, m) => TrackedRead(c, p, s, i, m, u, v, n);
        case Merge(i) => TrackedMerge(c, p, s, i, u, v, n);
        case End(i) => TrackedEnd(c, p, s, i, u, v, n);
      }
      TrackedSteps(c, p, DNext(c, p, s, a), acts[1..], t, u, v, n);
    }
  }

  /** If u is v itself, or below v, or no vertex, then v never finds what only u outputs; and it never
      misses what u always outputs if u is a proper ancestor. */
  lemma ReadLimits(c: Config, p: Program, u: Vertex, v: Vertex, n: Name)
    requires WellFormed(c) && OnlyFrom(p, u, n)
    ensures u !in c.vs || Reaches(c.es, v, u) ==> !CanRead(c, p, v, n, true)
    ensures Sole(p, u, n) && Above(c, u, v) ==> !CanRead(c, p, v, n, false)
  {
    hide WellFormed, DReachable, Inv, OnlyFrom, Sole, Above;
    forall s, found | DReachable(c, p, s) && HasRead(s, v, n, found)
      ensures if found then u in c.vs && !Reaches(c.es, v, u) else Sole(p, u, n) ==> !Above(c, u, v)
    {
      DReachableTracked(c, p, s, u, v, n);
    }
  }

  lemma DReachableTracked(c: Config, p: Program, s: DState, u: Vertex, v: Vertex, n: Name)
    requires WellFormed(c) && OnlyFrom(p, u, n) && DReachable(c, p, s)
    ensures Tracked(c, p, s, u, v, n)
  {
    var acts :| DSteps(c, p, DInit(p), acts, s);
    InitOK(c);
    assert Tracked(c, p, DInit(p), u, v, n);
    TrackedSteps(c, p, DInit(p), acts, s, u, v, n);
  }

  // ----- what some run lets a reader find -----

  /** Run goal, then begin v and let it read n. */
  lemma ReadAfter(c: Config, p: Program, within: set<Vertex>, goal: set<Vertex>, u: Vertex, v: Vertex, n: Name)
    requires WellFormed(c) && Acyclic(c.es) && Rooted(c.vs, c.es, c.from) && Succeeds(p) && Sole(p, u, n)
    requires AncestorClosed(c, within) && AncestorClosed(c, goal) && goal <= within
    requires v in c.vs && v in within && v !in goal && Deps(c.es, v) <= goal && n in Reads(p, v)
    ensures CanRead(c, p, v, n, u in goal && u in c.vs)
  {
    hide DReachable, Acyclic, Rooted, AncestorClosed, Succeeds, Sole, Reads;
    var acts, x := ReachWithin(c, within, goal);
    var i := FindWorker(c.vs, x.workers, v);
    assert Deps(c.es, v) - goal == {};
    var s := LiftRun(c, p, acts, x);
    EndedInGoal(c, within, goal, x, u);
    var m := DNext(c, p, s, Start(i));
    DReachableStep(c, p, s, Start(i));
    assert i !in m.merged && m.input[i] == map[];
    var t := DNext(c, p, m, Read(i, n));
    DReachableStep(c, p, m, Read(i, n));
    assert n in m.out <==> u in goal && u in c.vs;
    assert t.ex.workers[i].v == v && n in t.input[i] && t.input[i][n].Some? == (u in goal && u in c.vs);
    assert HasRead(t, v, n, u in goal && u in c.vs);
  }

  lemma EndedInGoal(c: Config, within: set<Vertex>, goal: set<Vertex>, x: State, u: Vertex)
    requires Within(c, within, goal, x)
    ensures HasEndedFn(x.workers, u) <==> u in goal && u in c.vs
  {
    if u in c.vs { var k := FindWorker(c.vs, x.workers, u); }
  }

  /** Of a name that u alone always outputs, v finds a value in some run exactly when u is a vertex which v
      does not lead to, and finds none in some run exactly when u is no proper ancestor. So what v finds
      depends on the schedule exactly when u and v are not joined. */
  lemma ReadIff(c: Config, p: Program, u: Vertex, v: Vertex, n: Name)
    requires WellFormed(c) && Acyclic(c.es) && Rooted(c.vs, c.es, c.from) && Succeeds(p) && Sole(p, u, n)
    requires v in c.vs && n in Reads(p, v)
    ensures CanRead(c, p, v, n, true) <==> u in c.vs && !Reaches(c.es, v, u)
    ensures CanRead(c, p, v, n, false) <==> !Above(c, u, v)
    ensures CanRead(c, p, v, n, true) && CanRead(c, p, v, n, false) <==> !Joined(c, u, v)
  {
    hide Acyclic, Rooted, WellFormed, CanRead, AncestorClosed, Succeeds, Reads;
    ReadLimits(c, p, u, v, n);
    AncestryClosed(c, v);
    ReachMember(c.es, v, u);
    ReachMember(c.es, u, v);
    ReachesSelf(c.es, v);
    var before := Ancestry(c.es, v) - {v};
    if !Above(c, u, v) { ReadAfter(c, p, Ancestry(c.es, v), before, u, v, n); }
    if u in c.vs && !Reaches(c.es, v, u) {
      AncestryClosed(c, u);
      UnionClosed(c, Ancestry(c.es, v), Ancestry(c.es, u));
      UnionClosed(c, before, Ancestry(c.es, u));
      ReadAfter(c, p, Ancestry(c.es, v) + Ancestry(c.es, u), before + Ancestry(c.es, u), u, v, n);
    }
  }

  lemma UnionClosed(c: Config, a: set<Vertex>, b: set<Vertex>)
    requires AncestorClosed(c, a) && AncestorClosed(c, b)
    ensures AncestorClosed(c, a + b)
  {}

  lemma {:induction false} CalmToEnd(c: Config, s: State) returns (acts: seq<Action>, t: State)
    requires WellFormed(c) && Acyclic(c.es) && Inv(c, s) && Calm(s)
    ensures Steps(c, s, acts, t) && Stuck(c, t) && Calm(t)
    decreases Measure(c, s)
  {
    hide Acyclic, Inv, Calm, Enabled, Next, Stuck;
    if Stuck(c, s) {
      acts, t := [], s;
    } else {
      var a := CalmAction(c, s);
      StepWeighs(c, s, a);
      InvStep(c, s, a);
      var rest;
      rest, t := CalmToEnd(c, Next(c, s, a));
      acts := [a] + rest;
      assert acts[1..] == rest;
    }
  }

  lemma CalmSucceeds(c: Config, s: State)
    requires WellFormed(c) && Reachable(c, s) && Calm(s) && s.main.Returned?
    ensures s.main.success
  {
    ResultSound(c, s);
  }

  /** There are complete runs: a program whose functions succeed can run to success on every reduced graph
      with one fork. */
  lemma SuccessfulRunExists(c: Config, p: Program) returns (t: DState)
    requires WellFormed(c) && c.atomic && Acyclic(c.es) && Irredundant(c.es) && Rooted(c.vs, c.es, c.from)
    requires AtMostOneFork(c.es) && WellProduced(c, p) && Succeeds(p)
    ensures DReachable(c, p, t) && Complete(c, t) && t.ex.main == Returned(true)
  {
    hide Acyclic, Irredundant, Rooted, AtMostOneFork, WellProduced, Succeeds, DReachable, Complete, Inv, Stuck;
    InitOK(c);
    var acts, x := CalmToEnd(c, Init);
    assert Reachable(c, x);
    EndsReturned(c, x);
    CalmSucceeds(c, x);
    t := LiftRun(c, p, acts, x);
    OutcomeDetermined(c, p, t);
  }
}
