/** Every run of the executor is finite, so that a run that cannot get stuck completes. */
module ExecutorRuns {
  import opened Graphs
  import opened Executor
  import opened ExecutorSafety
  import opened ExecutorProgress

  function Sum(ns: seq<nat>): nat {
    if ns == [] then 0 else ns[0] + Sum(ns[1..])
  }

  function Pow(b: nat, n: nat): nat {
    if n == 0 then 1 else b * Pow(b, n - 1)
  }

  lemma {:induction false} SumConcat(a: seq<nat>, b: seq<nat>)
    ensures Sum(a + b) == Sum(a) + Sum(b)
  {
    if a == [] {
      assert a + b == b;
    } else {
      SumConcat(a[1..], b);
      assert (a + b)[1..] == a[1..] + b;
    }
  }

  lemma SumSplit(ns: seq<nat>, i: nat)
    requires i < |ns|
    ensures Sum(ns) == Sum(ns[..i]) + ns[i] + Sum(ns[i + 1..])
  {
    assert ns == ns[..i] + ns[i..];
    SumConcat(ns[..i], ns[i..]);
    assert ns[i..][1..] == ns[i + 1..];
  }

  lemma SumUpdate(ns: seq<nat>, i: nat, x: nat)
    requires i < |ns|
    ensures Sum(ns[i := x]) == Sum(ns) - ns[i] + x
  {
    SumSplit(ns, i);
    SumSplit(ns[i := x], i);
    assert ns[i := x][..i] == ns[..i] && ns[i := x][i + 1..] == ns[i + 1..];
  }

  lemma {:induction false} SumBound(ns: seq<nat>, m: nat)
    requires forall i :: 0 <= i < |ns| ==> ns[i] <= m
    ensures Sum(ns) <= |ns| * m
  {
    if ns != [] {
      SumBound(ns[1..], m);
      assert |ns| * m == m + (|ns| - 1) * m;
    }
  }

  lemma {:induction false} PowMonotone(b: nat, m: nat, n: nat)
    requires b >= 1 && m <= n
    ensures 1 <= Pow(b, m) <= Pow(b, n)
    decreases n
  {
    if m < n {
      PowMonotone(b, m, n - 1);
      Scale(b, Pow(b, n - 1));
    } else if n > 0 {
      PowMonotone(b, n - 1, n - 1);
      Scale(b, Pow(b, n - 1));
    }
  }

  lemma Scale(b: nat, x: nat)
    requires b >= 1
    ensures b * x >= x
  {}

  // ----- the measure -----

  /** What a new worker may cost. */
  function WorkerCost(c: Config): nat {
    5 * |c.vs| + 8
  }

  function Base(c: Config): nat {
    2 * |c.vs| + WorkerCost(c) + 2
  }

  /** A token weighs more than the worker and the tokens that it can leave behind. */
  ghost function TokenWeight(c: Config, t: Token): nat {
    Pow(Base(c), |Reach(c.es, t.v)|) + if t.Check? then 1 else 0
  }

  function WorkerWeight(c: Config, w: Worker): nat {
    match w.phase
    case Collect(todo) => 2 * |todo| + 3 * |c.vs| + 8
    case Await(todo, _) => 2 * |todo| + 3 * |c.vs| + 9
    case Running => 3 * |c.vs| + 7
    case Emit(_, todo) => 3 * |todo| + 5
    case Offer(_, todo, _) => 3 * |todo| + 7
    case CloseDep(_, todo, _) => 3 * |todo| + 6
    case Report(_) => 4
    case CloseDone(_) => 3
    case Finished(_) => 0
    case GaveUp => 0
  }

  ghost function MainWeight(c: Config, m: Main): nat {
    match m
    case Idle => Pow(Base(c), |Reach(c.es, c.from)|) + 2 * |c.vs| + 3
    case Pick(todo) => 2 * |todo| + 2
    case Listen(todo, _) => 2 * |todo| + 3
    case Returned(_) => 0
  }

  ghost function TokenWeights(c: Config, ts: seq<Token>): (ns: seq<nat>)
    ensures |ns| == |ts| && forall i :: 0 <= i < |ts| ==> ns[i] == TokenWeight(c, ts[i])
  {
    seq(|ts|, i requires 0 <= i < |ts| => TokenWeight(c, ts[i]))
  }

  function WorkerWeights(c: Config, ws: seq<Worker>): (ns: seq<nat>)
    ensures |ns| == |ws| && forall i :: 0 <= i < |ws| ==> ns[i] == WorkerWeight(c, ws[i])
  {
    seq(|ws|, i requires 0 <= i < |ws| => WorkerWeight(c, ws[i]))
  }

  ghost function Measure(c: Config, s: State): nat {
    Sum(TokenWeights(c, s.tokens)) + Sum(WorkerWeights(c, s.workers)) + MainWeight(c, s.main)
      + if s.cancelled then 0 else 1
  }

  /** The children of v, and a worker for v, weigh less than a token for v. */
  lemma KidsWeigh(c: Config, v: Vertex, kids: seq<Vertex>)
    requires WellFormed(c) && Acyclic(c.es) && Lists(kids, Downs(c.es, v))
    ensures Sum(TokenWeights(c, Spawn(kids))) + WorkerCost(c) < Pow(Base(c), |Reach(c.es, v)|)
  {
    var h := |Reach(c.es, v)|;
    ReachesSelf(c.es, v);
    ReachMember(c.es, v, v);
    assert h >= 1;
    var x := Pow(Base(c), h - 1);
    PowMonotone(Base(c), 0, h - 1);
    var ns := TokenWeights(c, Spawn(kids));
    forall i | 0 <= i < |ns|
      ensures ns[i] <= x + 1
    {
      var w := kids[i];
      assert w in Downs(c.es, v);
      DepsDowns(c.es, v, w);
      ReachShrinks(c.es, v, w);
      SubsetSize(Reach(c.es, w), Reach(c.es, v));
      PowMonotone(Base(c), |Reach(c.es, w)|, h - 1);
      assert Spawn(kids)[i] == Check(w);
    }
    SumBound(ns, x + 1);
    DegreesFit(c, v);
    Fits(|c.vs|, |kids|, WorkerCost(c), x);
  }

  lemma Fits(n: nat, k: nat, cost: nat, x: nat)
    requires k <= n && x >= 1
    ensures k * (x + 1) + cost < (2 * n + cost + 2) * x
  {
    assert k * (x + 1) <= n * (x + 1) == n * x + n;
    Scale2(x, n);
    Scale2(x, cost);
    assert (2 * n + cost + 2) * x == 2 * (n * x) + cost * x + 2 * x;
  }

  lemma Scale2(x: nat, n: nat)
    requires x >= 1
    ensures n * x >= n
  {}

  lemma DegreesFit(c: Config, v: Vertex)
    requires WellFormed(c)
    ensures |Downs(c.es, v)| <= |c.vs| && |Deps(c.es, v)| <= |c.vs|
  {
    SubsetSize(Downs(c.es, v), c.vs);
    SubsetSize(Deps(c.es, v), c.vs);
  }

  lemma TokensWeigh(c: Config, s: State, k: nat, kids: seq<Vertex>)
    requires k < |s.tokens|
    ensures Sum(TokenWeights(c, WithoutToken(s, k, kids))) ==
            Sum(TokenWeights(c, s.tokens)) - TokenWeight(c, s.tokens[k]) + Sum(TokenWeights(c, Spawn(kids)))
  {
    var ns, ms := TokenWeights(c, s.tokens), TokenWeights(c, Spawn(kids));
    SumSplit(ns, k);
    SumConcat(ns[..k], ns[k + 1..]);
    SumConcat(ns[..k] + ns[k + 1..], ms);
    TokenWeightsSplit(c, s, k, kids);
  }

  lemma TokenWeightsSplit(c: Config, s: State, k: nat, kids: seq<Vertex>)
    requires k < |s.tokens|
    ensures var ns := TokenWeights(c, s.tokens);
            TokenWeights(c, WithoutToken(s, k, kids)) == ns[..k] + ns[k + 1..] + TokenWeights(c, Spawn(kids))
  {}

  lemma WorkerWeighs(c: Config, ws: seq<Worker>, i: nat, w: Worker)
    requires i < |ws|
    ensures Sum(WorkerWeights(c, ws[i := w])) == Sum(WorkerWeights(c, ws)) - WorkerWeight(c, ws[i]) + WorkerWeight(c, w)
  {
    SumUpdate(WorkerWeights(c, ws), i, WorkerWeight(c, w));
    assert WorkerWeights(c, ws[i := w]) == WorkerWeights(c, ws)[i := WorkerWeight(c, w)];
  }

  lemma WorkerAdds(c: Config, ws: seq<Worker>, v: Vertex)
    requires WellFormed(c)
    ensures Sum(WorkerWeights(c, ws + [NewWorker(c, v)])) <= Sum(WorkerWeights(c, ws)) + WorkerCost(c)
  {
    DegreesFit(c, v);
    var w := NewWorker(c, v);
    assert WorkerWeights(c, ws + [w]) == WorkerWeights(c, ws) + [WorkerWeight(c, w)];
    SumConcat(WorkerWeights(c, ws), [WorkerWeight(c, w)]);
    assert Sum([WorkerWeight(c, w)]) == WorkerWeight(c, w);
  }

  // ----- every action weighs something -----

  lemma BeginWeighs(c: Config, s: State, a: Action)
    requires WellFormed(c) && Acyclic(c.es) && a.Begin? && Enabled(c, s, a) && s.workers == [] && s.tokens == []
    ensures Measure(c, Next(c, s, a)) < Measure(c, s)
  {
    KidsWeigh(c, c.from, a.kids);
    WorkerAdds(c, [], c.from);
    assert [] + [NewWorker(c, c.from)] == [NewWorker(c, c.from)];
  }

  lemma TokenActionWeighs(c: Config, s: State, a: Action)
    requires WellFormed(c) && Acyclic(c.es) && (a.Look? || a.Visit?) && Enabled(c, s, a)
    ensures Measure(c, Next(c, s, a)) < Measure(c, s)
  {
    KidsWeigh(c, s.tokens[a.k].v, a.kids);
    TokensWeigh(c, s, a.k, a.kids);
    if a.Visit? {
      WorkerAdds(c, s.workers, s.tokens[a.k].v);
    } else if s.tokens[a.k].v !in s.visited {
      var m := Mark(s.tokens[a.k].v);
      SumUpdate(TokenWeights(c, s.tokens), a.k, TokenWeight(c, m));
      assert TokenWeights(c, s.tokens[a.k := m]) == TokenWeights(c, s.tokens)[a.k := TokenWeight(c, m)];
    }
  }

  lemma MainActionWeighs(c: Config, s: State, a: Action)
    requires a.MainChoose? || a.MainAll? || a.MainClosed? || a.MainCancelled? || a.Cancel?
    requires Enabled(c, s, a)
    ensures Measure(c, Next(c, s, a)) < Measure(c, s)
  {}

  /** Worker i moves on to a lighter phase; nothing else that has weight changes. */
  lemma WorkerLighter(c: Config, s: State, t: State, i: nat)
    requires i < |s.workers| && i < |t.workers| && t.workers == s.workers[i := t.workers[i]]
    requires t.tokens == s.tokens && t.main == s.main && t.cancelled == s.cancelled
    requires WorkerWeight(c, t.workers[i]) < WorkerWeight(c, s.workers[i])
    ensures Measure(c, t) < Measure(c, s)
  {
    WorkerWeighs(c, s.workers, i, t.workers[i]);
  }

  lemma WaitActionWeighs(c: Config, s: State, a: Action)
    requires Enabled(c, s, a) && (a.Choose? || a.GiveUp? || a.RunFn?)
    ensures Measure(c, Next(c, s, a)) < Measure(c, s)
  {
    var w := s.workers[a.i];
    if a.Choose? { assert w.phase.todo == w.phase.todo - {a.dep} + {a.dep}; }
    WorkerLighter(c, s, Next(c, s, a), a.i);
  }

  lemma EmitActionWeighs(c: Config, s: State, a: Action)
    requires WellFormed(c) && Enabled(c, s, a) && (a.EndFn? || a.ChooseTo? || a.CloseCh?)
    ensures Measure(c, Next(c, s, a)) < Measure(c, s)
  {
    var w := s.workers[a.i];
    DegreesFit(c, w.v);
    if a.ChooseTo? { assert w.phase.todo == w.phase.todo - {a.to} + {a.to}; }
    WorkerLighter(c, s, Next(c, s, a), a.i);
  }

  lemma ReportActionWeighs(c: Config, s: State, a: Action)
    requires Enabled(c, s, a) && (a.SentAll? || a.CloseMain?)
    ensures Measure(c, Next(c, s, a)) < Measure(c, s)
  {
    WorkerLighter(c, s, Next(c, s, a), a.i);
  }

  lemma SendWeighs(c: Config, s: State, i: nat, j: nat)
    requires Enabled(c, s, Send(i, j))
    ensures Measure(c, Next(c, s, Send(i, j))) < Measure(c, s)
  {
    var ws := AfterSend(s, i, j);
    var mid := s.workers[i := ws[i]];
    WorkerWeighs(c, s.workers, i, ws[i]);
    WorkerWeighs(c, mid, j, ws[j]);
    assert ws == mid[j := ws[j]];
  }

  lemma SendMainWeighs(c: Config, s: State, i: nat)
    requires Enabled(c, s, SendMain(i))
    ensures Measure(c, Next(c, s, SendMain(i))) < Measure(c, s)
  {
    var t := Next(c, s, SendMain(i));
    WorkerWeighs(c, s.workers, i, t.workers[i]);
    assert t.workers == s.workers[i := t.workers[i]];
  }

  lemma StepWeighs(c: Config, s: State, a: Action)
    requires WellFormed(c) && Acyclic(c.es) && Inv(c, s) && Enabled(c, s, a)
    ensures Measure(c, Next(c, s, a)) < Measure(c, s)
  {
    match a
    case Begin(_) => BeginWeighs(c, s, a);
    case Look(_, _) => TokenActionWeighs(c, s, a);
    case Visit(_, _) => TokenActionWeighs(c, s, a);
    case Send(i, j) => SendWeighs(c, s, i, j);
    case SendMain(i) => SendMainWeighs(c, s, i);
    case MainChoose(_) => MainActionWeighs(c, s, a);
    case MainAll => MainActionWeighs(c, s, a);
    case MainClosed => MainActionWeighs(c, s, a);
    case MainCancelled => MainActionWeighs(c, s, a);
    case Cancel => MainActionWeighs(c, s, a);
    case Choose(_, _) => WaitActionWeighs(c, s, a);
    case GiveUp(_) => WaitActionWeighs(c, s, a);
    case RunFn(_) => WaitActionWeighs(c, s, a);
    case EndFn(_, _) => EmitActionWeighs(c, s, a);
    case ChooseTo(_, _) => EmitActionWeighs(c, s, a);
    case CloseCh(_) => EmitActionWeighs(c, s, a);
    case SentAll(_) => ReportActionWeighs(c, s, a);
    case CloseMain(_) => ReportActionWeighs(c, s, a);
  }

  /** No run is longer than its measure, with the racy visited check as with the atomic one. */
  lemma {:induction false} RunsAreFinite(c: Config, s: State, acts: seq<Action>, t: State)
    requires WellFormed(c) && Acyclic(c.es) && Inv(c, s) && Steps(c, s, acts, t)
    ensures |acts| + Measure(c, t) <= Measure(c, s)
    decreases |acts|
  {
    if acts != [] {
      StepWeighs(c, s, acts[0]);
      InvStep(c, s, acts[0]);
      RunsAreFinite(c, Next(c, s, acts[0]), acts[1..], t);
    }
  }

  /** Any run can be driven on to a state in which nothing more can happen. */
  lemma {:induction false} RunToEnd(c: Config, s: State) returns (acts: seq<Action>, t: State)
    requires WellFormed(c) && Acyclic(c.es) && Inv(c, s)
    ensures Steps(c, s, acts, t) && Stuck(c, t)
    decreases Measure(c, s)
  {
    if Stuck(c, s) {
      acts, t := [], s;
    } else {
      var a :| Enabled(c, s, a) && !a.Cancel?;
      StepWeighs(c, s, a);
      InvStep(c, s, a);
      var rest;
      rest, t := RunToEnd(c, Next(c, s, a));
      acts := [a] + rest;
      assert acts[1..] == rest;
    }
  }

  lemma {:induction false} StepsConcat(c: Config, s: State, p: seq<Action>, m: State, q: seq<Action>, t: State)
    requires Steps(c, s, p, m) && Steps(c, m, q, t)
    ensures Steps(c, s, p + q, t)
    decreases |p|
  {
    if p == [] {
      assert p + q == q;
    } else {
      StepsConcat(c, Next(c, s, p[0]), p[1..], m, q, t);
      assert (p + q)[1..] == p[1..] + q;
    }
  }

  /** At most one vertex has two dependents, or at most one has two dependencies. */
  ghost predicate AtMostOneFork(es: Edges) {
    || (forall u, v :: FanOut(es, u) && FanOut(es, v) ==> u == v)
    || (forall u, v :: FanIn(es, u) && FanIn(es, v) ==> u == v)
  }

  /** On an irredundant rooted graph with at most one fork, and with an atomic visited check, every run
      has a bound on its length and ends only after the main walk has returned. */
  lemma EveryRunCompletes(c: Config, acts: seq<Action>, s: State)
    requires WellFormed(c) && c.atomic && Acyclic(c.es) && Irredundant(c.es) && Rooted(c.vs, c.es, c.from)
    requires AtMostOneFork(c.es) && Steps(c, Init, acts, s)
    ensures |acts| <= Measure(c, Init)
    ensures Stuck(c, s) ==> s.main.Returned?
    ensures exists more, t :: Steps(c, s, more, t) && t.main.Returned?
  {
    hide Stuck, Acyclic, Irredundant, Rooted, AtMostOneFork, Measure;
    assert Inv(c, Init);
    hide Inv, WellFormed;
    RunsAreFinite(c, Init, acts, s);
    assert Reachable(c, s);
    if Stuck(c, s) { EndsReturned(c, s); }
    InvSteps(c, Init, acts, s);
    var more, t := RunToEnd(c, s);
    StepsConcat(c, Init, acts, s, more, t);
    assert Reachable(c, t);
    EndsReturned(c, t);
  }

  lemma EndsReturned(c: Config, s: State)
    requires WellFormed(c) && c.atomic && Acyclic(c.es) && Irredundant(c.es) && Rooted(c.vs, c.es, c.from)
    requires AtMostOneFork(c.es) && Reachable(c, s) && Stuck(c, s)
    ensures s.main.Returned?
  {
    if forall u, v :: FanOut(c.es, u) && FanOut(c.es, v) ==> u == v {
      NoDeadlockFanOut(c, s);
    } else {
      NoDeadlockFanIn(c, s);
    }
  }

  // ----- a run that is cancelled -----

  /** Until it has returned, the main walk of a cancelled run can always move. */
  lemma CancelledMoves(c: Config, s: State) returns (a: Action)
    requires s.cancelled && !s.main.Returned?
    ensures Enabled(c, s, a) && !a.Cancel?
  {
    match s.main {
      case Idle =>
        var kids := Listing(Downs(c.es, c.from));
        a := Begin(kids);
      case Pick(todo) =>
        if v :| v in todo { a := MainChoose(v); } else { a := MainAll; }
      case Listen(_, _) =>
        a := MainCancelled;
    }
  }

  /** So such a run ends only with the main walk returned: on every graph, whatever its workers wait for. */
  lemma CancelledReturns(c: Config, s: State)
    requires s.cancelled && Stuck(c, s)
    ensures s.main.Returned?
  {
    if !s.main.Returned? {
      var a := CancelledMoves(c, s);
    }
  }

  /** A set in some order. */
  lemma Listing(vs: set<Vertex>) returns (kids: seq<Vertex>)
    ensures Lists(kids, vs)
  {
    kids := [];
    var todo := vs;
    while todo != {}
      invariant todo <= vs && |kids| == |vs| - |todo| && forall x :: x in kids <==> x in vs - todo
      decreases todo
    {
      var x :| x in todo;
      todo := todo - {x};
      kids := kids + [x];
    }
  }

  /** While the main walk listens, a cancellation lets it return false at once, with nothing else done. */
  lemma CancelReturns(c: Config, s: State) returns (acts: seq<Action>, t: State)
    requires s.main.Listen?
    ensures Steps(c, s, acts, t) && t == s.(main := Returned(false), cancelled := true)
  {
    var m := s.(cancelled := true);
    t := m.(main := Returned(false));
    assert Steps(c, t, [MainCancelled][1..], t);
    assert Steps(c, m, [MainCancelled], t);
    if s.cancelled {
      acts := [MainCancelled];
    } else {
      acts := [Cancel, MainCancelled];
      assert acts[1..] == [MainCancelled];
    }
  }

  /** On an acyclic graph every run is finite, so every cancelled run returns, with either check, also where
      workers have deadlocked. */
  lemma CancelledRunReturns(c: Config, s: State, acts: seq<Action>, t: State)
    requires WellFormed(c) && Acyclic(c.es) && Reachable(c, s) && s.cancelled && Steps(c, s, acts, t)
    ensures |acts| <= Measure(c, s) && (Stuck(c, t) ==> t.main.Returned?)
  {
    hide Stuck, Acyclic, Measure, Inv;
    InvReachable(c, s);
    RunsAreFinite(c, s, acts, t);
    StaysCancelled(c, s, acts, t);
    if Stuck(c, t) { CancelledReturns(c, t); }
  }

  lemma {:induction false} StaysCancelled(c: Config, s: State, acts: seq<Action>, t: State)
    requires s.cancelled && Steps(c, s, acts, t)
    ensures t.cancelled
    decreases |acts|
  {
    if acts != [] { StaysCancelled(c, Next(c, s, acts[0]), acts[1..], t); }
  }
}
