/** A dependency that fails does not stop its dependents: a worker waits for a value, whatever it is. And what
    the main walk leaves behind when it returns. */
module ExecutorFailures {
  import opened Graphs
  import opened Executor
  import opened ExecutorSafety
  import opened ExecutorSchedules

  // ----- the same run with the function of u failing -----

  function FlipPhase(p: Phase): Phase {
    match p
    case Emit(_, todo) => Emit(false, todo)
    case Offer(_, todo, to) => Offer(false, todo, to)
    case CloseDep(_, todo, to) => CloseDep(false, todo, to)
    case Report(_) => Report(false)
    case CloseDone(_) => CloseDone(false)
    case Finished(_) => Finished(false)
    case _ => p
  }

  function FlipWorker(w: Worker, u: Vertex): Worker {
    if w.v == u then Worker(u, FlipPhase(w.phase)) else w
  }

  function FlipEvent(e: Event, u: Vertex): Event {
    if e == Ended(u, true) then Ended(u, false) else e
  }

  function FlipWorkers(ws: seq<Worker>, u: Vertex): seq<Worker> {
    seq(|ws|, i requires 0 <= i < |ws| => FlipWorker(ws[i], u))
  }

  function FlipLog(log: seq<Event>, u: Vertex): seq<Event> {
    seq(|log|, i requires 0 <= i < |log| => FlipEvent(log[i], u))
  }

  ghost function Flip(s: State, u: Vertex): State {
    s.(workers := FlipWorkers(s.workers, u), log := FlipLog(s.log, u))
  }

  ghost function FlipAction(s: State, u: Vertex, a: Action): Action {
    if a.EndFn? && a.i < |s.workers| && s.workers[a.i].v == u then EndFn(a.i, false) else a
  }

  lemma FlipUpdate(ws: seq<Worker>, u: Vertex, i: nat, w: Worker)
    requires i < |ws|
    ensures FlipWorkers(ws[i := w], u) == FlipWorkers(ws, u)[i := FlipWorker(w, u)]
  {}

  lemma FlipAppend(ws: seq<Worker>, u: Vertex, w: Worker, log: seq<Event>, e: Event)
    ensures FlipWorkers(ws + [w], u) == FlipWorkers(ws, u) + [FlipWorker(w, u)]
    ensures FlipLog(log + [e], u) == FlipLog(log, u) + [FlipEvent(e, u)]
  {}

  predicate OfWorker(a: Action) {
    a.Choose? || a.GiveUp? || a.RunFn? || a.EndFn? || a.ChooseTo? || a.CloseCh? || a.SentAll? || a.CloseMain?
  }

  lemma FlipWait(c: Config, s: State, a: Action, u: Vertex)
    requires Enabled(c, s, a) && (a.Choose? || a.GiveUp? || a.RunFn?)
    ensures Enabled(c, Flip(s, u), a) && Next(c, Flip(s, u), a) == Flip(Next(c, s, a), u)
  {
    FlipUpdate(s.workers, u, a.i, Next(c, s, a).workers[a.i]);
    if a.RunFn? { FlipAppend([], u, s.workers[a.i], s.log, Started(s.workers[a.i].v)); }
  }

  lemma FlipEnd(c: Config, s: State, a: Action, u: Vertex)
    requires Enabled(c, s, a) && a.EndFn?
    ensures Enabled(c, Flip(s, u), FlipAction(s, u, a))
    ensures Next(c, Flip(s, u), FlipAction(s, u, a)) == Flip(Next(c, s, a), u)
  {
    FlipUpdate(s.workers, u, a.i, Next(c, s, a).workers[a.i]);
    FlipAppend([], u, s.workers[a.i], s.log, Ended(s.workers[a.i].v, a.ok));
  }

  lemma FlipEmit(c: Config, s: State, a: Action, u: Vertex)
    requires Enabled(c, s, a) && (a.ChooseTo? || a.CloseCh? || a.SentAll? || a.CloseMain?)
    ensures Enabled(c, Flip(s, u), a) && Next(c, Flip(s, u), a) == Flip(Next(c, s, a), u)
  {
    FlipUpdate(s.workers, u, a.i, Next(c, s, a).workers[a.i]);
  }

  lemma FlipOther(c: Config, s: State, a: Action, u: Vertex)
    requires Enabled(c, s, a) && !OfWorker(a) && !a.Send? && !a.SendMain?
    ensures Enabled(c, Flip(s, u), a) && Next(c, Flip(s, u), a) == Flip(Next(c, s, a), u)
  {
    var t := Next(c, s, a);
    if a.Visit? {
      FlipAppend(s.workers, u, NewWorker(c, s.tokens[a.k].v), [], Started(u));
    } else if a.Begin? {
      assert FlipWorkers(t.workers, u) == t.workers;
    }
  }

  lemma FlipSend(c: Config, s: State, i: nat, j: nat, u: Vertex)
    requires Enabled(c, s, Send(i, j))
    ensures Enabled(c, Flip(s, u), Send(i, j)) && Next(c, Flip(s, u), Send(i, j)) == Flip(Next(c, s, Send(i, j)), u)
  {
    assert CanSend(Flip(s, u), i, j);
    assert AfterSend(Flip(s, u), i, j) == FlipWorkers(AfterSend(s, i, j), u);
  }

  /** Only the report to the main walk depends on how a function ended. */
  lemma FlipStep(c: Config, s: State, a: Action, u: Vertex)
    requires Enabled(c, s, a) && !a.SendMain?
    ensures Enabled(c, Flip(s, u), FlipAction(s, u, a))
    ensures Next(c, Flip(s, u), FlipAction(s, u, a)) == Flip(Next(c, s, a), u)
  {
    hide Enabled, Next, Flip;
    assert !a.EndFn? ==> FlipAction(s, u, a) == a;
    if a.EndFn? {
      FlipEnd(c, s, a, u);
    } else if a.Choose? || a.GiveUp? || a.RunFn? {
      FlipWait(c, s, a, u);
    } else if OfWorker(a) {
      FlipEmit(c, s, a, u);
    } else if a.Send? {
      FlipSend(c, s, a.i, a.j, u);
    } else {
      FlipOther(c, s, a, u);
    }
  }

  /** The main walk has heard from some vertex. */
  ghost predicate Heard(c: Config, main: Main) {
    match main
    case Idle => false
    case Pick(todo) => !(c.vs <= todo)
    case Listen(todo, v) => !(c.vs <= todo + {v})
    case Returned(_) => true
  }

  lemma HeardStep(c: Config, s: State, a: Action)
    requires Inv(c, s) && Enabled(c, s, a)
    ensures Heard(c, s.main) || a.SendMain? ==> Heard(c, Next(c, s, a).main)
  {
    hide TokensOK, BegunOK, GotOnce, OwnerOK, GotWasSent, ClosedOK, LogOK;
    if a.SendMain? {
      assert WorkerOK(c, s.workers[a.i]);
    }
    if a.MainChoose? {
      assert s.main.todo - {a.v} + {a.v} == s.main.todo;
    }
  }

  lemma {:induction false} HeardSteps(c: Config, s: State, acts: seq<Action>, t: State)
    requires WellFormed(c) && Inv(c, s) && Steps(c, s, acts, t) && Heard(c, s.main)
    ensures Heard(c, t.main)
    decreases |acts|
  {
    hide WellFormed, Inv, Heard, Enabled, Next;
    if acts != [] {
      HeardStep(c, s, acts[0]);
      InvStep(c, s, acts[0]);
      HeardSteps(c, Next(c, s, acts[0]), acts[1..], t);
    }
  }

  /** A run in which the main walk has heard nothing is also a run with the function of u failing. */
  lemma {:induction false} FlipSteps(c: Config, s: State, acts: seq<Action>, t: State, u: Vertex)
    returns (flipped: seq<Action>)
    requires WellFormed(c) && Inv(c, s) && Steps(c, s, acts, t) && !Heard(c, t.main)
    ensures Steps(c, Flip(s, u), flipped, Flip(t, u))
    decreases |acts|
  {
    hide WellFormed, Inv, Heard, Enabled, Next, Flip, FlipAction;
    if acts == [] {
      flipped := [];
    } else {
      var a, m := acts[0], Next(c, s, acts[0]);
      InvStep(c, s, a);
      HeardStep(c, s, a);
      if a.SendMain? { HeardSteps(c, m, acts[1..], t); }
      FlipStep(c, s, a, u);
      var rest := FlipSteps(c, m, acts[1..], t, u);
      flipped := [FlipAction(s, u, a)] + rest;
      assert flipped[1..] == rest;
    }
  }

  // ----- what that means for a dependent -----

  /** A run in which all ancestors of w have returned, u with a failure, and a worker of w is ready. */
  lemma FailedAbove(c: Config, u: Vertex, w: Vertex) returns (acts: seq<Action>, s: State, i: nat)
    requires WellFormed(c) && Acyclic(c.es) && Rooted(c.vs, c.es, c.from) && w in c.vs && u != w && Reaches(c.es, u, w)
    ensures Steps(c, Init, acts, s) && Ended(u, false) in s.log && Ended(u, true) !in s.log
    ensures i < |s.workers| && s.workers[i] == Worker(w, Collect({}))
  {
    hide Acyclic, Rooted, Inv, Within, Steps, WellFormed, Enabled, Next;
    AncestryClosed(c, w);
    ReachMember(c.es, w, u);
    var up := Ancestry(c.es, w) - {w};
    var some, t := ReachWithin(c, Ancestry(c.es, w), up);
    InitOK(c);
    InvSteps(c, Init, some, t);
    EndedWithin(c, Ancestry(c.es, w), up, t, u);
    i := ReadyWithin(c, Ancestry(c.es, w), up, t, w);
    assert Flip(Init, u) == Init;
    acts := FlipSteps(c, Init, some, t, u);
    s := Flip(t, u);
    FlipHasFailed(t.log, u);
  }

  /** Whatever w depends on, some run begins the function of w after that of u has failed. */
  lemma FailedDependencyRuns(c: Config, u: Vertex, w: Vertex) returns (s: State, j: nat)
    requires WellFormed(c) && Acyclic(c.es) && Rooted(c.vs, c.es, c.from) && w in c.vs && u != w && Reaches(c.es, u, w)
    ensures Reachable(c, s) && j < |s.log| && s.log[j] == Started(w)
    ensures Ended(u, false) in s.log[..j] && Ended(u, true) !in s.log
  {
    hide Acyclic, Rooted, Steps, WellFormed;
    var acts, m, i := FailedAbove(c, u, w);
    s := Next(c, m, RunFn(i));
    StepsSnoc(c, Init, acts, m, RunFn(i));
    j := |m.log|;
    assert s.log[..j] == m.log;
  }

  lemma FlipHasFailed(log: seq<Event>, u: Vertex)
    requires Ended(u, true) in log
    ensures Ended(u, false) in FlipLog(log, u) && Ended(u, true) !in FlipLog(log, u)
  {
    var k :| 0 <= k < |log| && log[k] == Ended(u, true);
    assert FlipLog(log, u)[k] == Ended(u, false);
  }

  lemma EndedWithin(c: Config, within: set<Vertex>, done: set<Vertex>, t: State, u: Vertex)
    requires Inv(c, t) && Within(c, within, done, t) && u in done && u in c.vs
    ensures Ended(u, true) in t.log && !Heard(c, t.main)
  {
    hide TokensOK, BegunOK, GotOnce, GotWasSent, ClosedOK, MainOK;
    var i := FindWorker(c.vs, t.workers, u);
    assert PhaseOf(t.owner, t.workers, u) == t.workers[i].phase;
  }

  lemma ReadyWithin(c: Config, within: set<Vertex>, done: set<Vertex>, t: State, w: Vertex) returns (i: nat)
    requires Within(c, within, done, t) && w in c.vs && w in within && w !in done && Deps(c.es, w) <= done
    ensures i < |t.workers| && t.workers[i] == Worker(w, Collect({}))
  {
    i := FindWorker(c.vs, t.workers, w);
    assert Deps(c.es, w) - done == {};
  }

  /** In every run, u has succeeded when w begins. */
  ghost predicate SuccessForced(c: Config, u: Vertex, w: Vertex) {
    forall s, j :: Reachable(c, s) && 0 <= j < |s.log| && s.log[j] == Started(w) ==> Ended(u, true) in s.log[..j]
  }

  /** That is so for no two vertices, although they may be in order: a path forces the end, never the
      success. */
  lemma SuccessNeverForced(c: Config, u: Vertex, w: Vertex)
    requires WellFormed(c) && Acyclic(c.es) && Rooted(c.vs, c.es, c.from) && w in c.vs && u != w
    ensures !SuccessForced(c, u, w)
  {
    hide Acyclic, Rooted, WellFormed, Reachable;
    if Reaches(c.es, u, w) {
      var s, j := FailedDependencyRuns(c, u, w);
      assert Ended(u, true) !in s.log[..j];
    } else {
      var s := NotForced(c, u, w);
      var j := |s.log| - 1;
      assert Ended(u, true) !in s.log[..j];
    }
  }

  // ----- what the main walk leaves behind -----

  lemma UnreportedStep(c: Config, s: State, a: Action, i: nat)
    requires s.main.Returned? && i < |s.workers| && !Reported(s.workers[i].phase) && Enabled(c, s, a)
    ensures var t := Next(c, s, a); t.main == s.main && i < |t.workers| && !Reported(t.workers[i].phase)
  {}

  lemma {:induction false} StaysUnreported(c: Config, s: State, acts: seq<Action>, t: State, i: nat)
    requires s.main.Returned? && i < |s.workers| && !Reported(s.workers[i].phase) && Steps(c, s, acts, t)
    ensures t.main == s.main && i < |t.workers| && !Reported(t.workers[i].phase)
    decreases |acts|
  {
    hide Enabled, Next;
    if acts != [] {
      UnreportedStep(c, s, acts[0], i);
      StaysUnreported(c, Next(c, s, acts[0]), acts[1..], t, i);
    }
  }

  ghost predicate CanFinish(c: Config, s: State, i: nat) {
    exists acts, t :: Steps(c, s, acts, t) && i < |t.workers| && t.workers[i].phase.Finished?
  }

  /** Once the main walk has returned, a worker can still come to its end exactly if it has reported; any
      other stays for ever, at the latest in its report, which nobody hears. */
  lemma FinishesIff(c: Config, s: State, i: nat)
    requires WellFormed(c) && Reachable(c, s) && s.main.Returned? && i < |s.workers|
    ensures CanFinish(c, s, i) <==> Reported(s.workers[i].phase)
  {
    InvReachable(c, s);
    hide Inv;
    if s.workers[i].phase.Finished? {
      assert Steps(c, s, [], s);
    } else if s.workers[i].phase.CloseDone? {
      CloseMainEnabled(c, s, i);
      var t := Next(c, s, CloseMain(i));
      assert Steps(c, t, [CloseMain(i)][1..], t);
      assert Steps(c, s, [CloseMain(i)], t);
    } else {
      forall acts, t | Steps(c, s, acts, t)
        ensures i < |t.workers| && !t.workers[i].phase.Finished?
      {
        StaysUnreported(c, s, acts, t, i);
      }
    }
  }

  lemma CloseMainEnabled(c: Config, s: State, i: nat)
    requires Inv(c, s) && i < |s.workers| && s.workers[i].phase.CloseDone?
    ensures Enabled(c, s, CloseMain(i))
  {
    assert PhaseOf(s.owner, s.workers, s.workers[i].v) == s.workers[i].phase;
  }

  /** A success leaves nobody behind who has begun; a failure leaves all who have not reported. */
  lemma SuccessLeavesNone(c: Config, s: State, i: nat)
    requires WellFormed(c) && Reachable(c, s) && s.main == Returned(true) && i < |s.workers| && Ran(s.workers[i].phase)
    ensures CanFinish(c, s, i)
  {
    InvReachable(c, s);
    assert Reported(PhaseOf(s.owner, s.workers, s.workers[i].v));
    FinishesIff(c, s, i);
  }
}
