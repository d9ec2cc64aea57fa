/** What every reachable state of the executor keeps, whether or not the visited check is atomic. */
module ExecutorSafety {
  import opened Graphs
  import opened Executor

  /** The graph is closed under its edges, holds the start vertex, and nothing points at that. */
  ghost predicate WellFormed(c: Config) {
    && c.from in c.vs
    && (forall e :: e in c.es ==> e.from in c.vs && e.to in c.vs)
    && Deps(c.es, c.from) == {}
  }

  predicate Ran(p: Phase) {
    !p.Collect? && !p.Await? && !p.GaveUp?
  }

  predicate HasResult(p: Phase) {
    Ran(p) && !p.Running?
  }

  /** The main walk has received the result. */
  predicate Reported(p: Phase) {
    p.CloseDone? || p.Finished?
  }

  predicate Sent(p: Phase, to: Vertex) {
    match p
    case Emit(_, todo) => to !in todo
    case Offer(_, todo, t) => to !in todo && to != t
    case CloseDep(_, todo, _) => to !in todo
    case _ => p.Report? || Reported(p)
  }

  predicate Closed(p: Phase, to: Vertex) {
    Sent(p, to) && !(p.CloseDep? && p.to == to)
  }

  /** The dependencies whose value a worker holds. */
  ghost function Got(c: Config, w: Worker): set<Vertex> {
    match w.phase
    case Collect(todo) => Deps(c.es, w.v) - todo
    case Await(todo, dep) => Deps(c.es, w.v) - todo - {dep}
    case GaveUp => {}
    case _ => Deps(c.es, w.v)
  }

  ghost predicate WorkerOK(c: Config, w: Worker) {
    && w.v in c.vs
    && (w.v == c.from || Deps(c.es, w.v) != {})
    && match w.phase
       case Collect(todo) => todo <= Deps(c.es, w.v)
       case Await(todo, dep) => todo <= Deps(c.es, w.v) && dep in Deps(c.es, w.v) && dep !in todo
       case Emit(_, todo) => todo <= Downs(c.es, w.v)
       case Offer(_, todo, to) => todo <= Downs(c.es, w.v) && to in Downs(c.es, w.v) && to !in todo
       case CloseDep(_, todo, to) => todo <= Downs(c.es, w.v) && to in Downs(c.es, w.v) && to !in todo
       case _ => true
  }

  ghost predicate TokensOK(c: Config, tokens: seq<Token>) {
    forall k :: 0 <= k < |tokens| ==> tokens[k].v in c.vs && Deps(c.es, tokens[k].v) != {}
  }

  /** Before the main walk begins there is nothing; after that there is the worker of From. */
  ghost predicate BegunOK(s: State) {
    && (s.main.Idle? ==> s == Init.(cancelled := s.cancelled))
    && (!s.main.Idle? ==> |s.workers| > 0)
  }

  ghost predicate WorkersOK(c: Config, ws: seq<Worker>) {
    forall i :: 0 <= i < |ws| ==> WorkerOK(c, ws[i]) && (ws[i].v == c.from <==> i == 0)
  }

  /** No value is held by two workers of one vertex. */
  ghost predicate GotOnce(c: Config, ws: seq<Worker>) {
    forall i, j :: 0 <= i < j < |ws| && ws[i].v == ws[j].v ==> Got(c, ws[i]) !! Got(c, ws[j])
  }

  ghost predicate OwnerOK(owner: map<Vertex, nat>, ws: seq<Worker>) {
    && (forall v :: v in owner ==> owner[v] < |ws| && ws[owner[v]].v == v && Ran(ws[owner[v]].phase))
    && (forall i :: 0 <= i < |ws| && Ran(ws[i].phase) ==> ws[i].v in owner && owner[ws[i].v] == i)
  }

  /** The phase of the worker that runs, or ran, the function of v; GaveUp if there is none. */
  ghost function PhaseOf(owner: map<Vertex, nat>, ws: seq<Worker>, v: Vertex): Phase {
    if v in owner && owner[v] < |ws| then ws[owner[v]].phase else GaveUp
  }

  ghost predicate GotWasSent(c: Config, owner: map<Vertex, nat>, ws: seq<Worker>) {
    forall j, u :: 0 <= j < |ws| && u in Got(c, ws[j]) ==> Sent(PhaseOf(owner, ws, u), ws[j].v)
  }

  ghost predicate ClosedOK(c: Config, owner: map<Vertex, nat>, ws: seq<Worker>, closed: set<Edge>,
                           doneClosed: set<Vertex>) {
    && (forall e :: e in closed <==> e in c.es && Closed(PhaseOf(owner, ws, e.from), e.to))
    && (forall v :: v in doneClosed <==> PhaseOf(owner, ws, v).Finished?)
  }

  /** vs are the vertices the main walk has not heard from; all others succeeded. */
  ghost predicate Unheard(c: Config, owner: map<Vertex, nat>, ws: seq<Worker>, vs: set<Vertex>) {
    && vs <= c.vs
    && (forall v :: v in vs ==> !Reported(PhaseOf(owner, ws, v)))
    && (forall v :: v in c.vs && v !in vs ==> Reported(PhaseOf(owner, ws, v)) && PhaseOf(owner, ws, v).ok)
  }

  ghost predicate Failed(owner: map<Vertex, nat>, ws: seq<Worker>, v: Vertex) {
    Reported(PhaseOf(owner, ws, v)) && !PhaseOf(owner, ws, v).ok
  }

  ghost predicate MainOK(c: Config, owner: map<Vertex, nat>, ws: seq<Worker>, main: Main, cancelled: bool) {
    match main
    case Idle => true
    case Pick(todo) => Unheard(c, owner, ws, todo)
    case Listen(todo, v) => v !in todo && Unheard(c, owner, ws, todo + {v})
    case Returned(success) =>
      if success then Unheard(c, owner, ws, {}) else cancelled || exists v :: v in c.vs && Failed(owner, ws, v)
  }

  /** Every start follows the ends of all dependencies, every end follows its start, and both
      happen once. */
  ghost predicate LegalLog(c: Config, log: seq<Event>)
    decreases |log|
  {
    if log == [] then true
    else
      var before := log[..|log| - 1];
      LegalLog(c, before) && LegalEvent(c, before, log[|log| - 1])
  }

  ghost predicate HasEnded(log: seq<Event>, v: Vertex) {
    Ended(v, true) in log || Ended(v, false) in log
  }

  ghost predicate LegalEvent(c: Config, before: seq<Event>, e: Event) {
    match e
    case Started(v) => Started(v) !in before && forall u :: u in Deps(c.es, v) ==> HasEnded(before, u)
    case Ended(v, _) => Started(v) in before && !HasEnded(before, v)
  }

  ghost predicate LogOK(c: Config, owner: map<Vertex, nat>, ws: seq<Worker>, log: seq<Event>) {
    && LegalLog(c, log)
    && (forall v :: Started(v) in log <==> v in owner)
    && (forall v, ok :: Ended(v, ok) in log <==> HasResult(PhaseOf(owner, ws, v)) && PhaseOf(owner, ws, v).ok == ok)
  }

  ghost predicate Inv(c: Config, s: State) {
    && TokensOK(c, s.tokens) && BegunOK(s)
    && WorkersOK(c, s.workers) && GotOnce(c, s.workers)
    && OwnerOK(s.owner, s.workers) && GotWasSent(c, s.owner, s.workers)
    && ClosedOK(c, s.owner, s.workers, s.closed, s.doneClosed)
    && MainOK(c, s.owner, s.workers, s.main, s.cancelled)
    && LogOK(c, s.owner, s.workers, s.log)
  }

  // ----- actions that change no worker -----

  lemma TokensAfter(c: Config, s: State, k: nat, kids: seq<Vertex>)
    requires WellFormed(c) && TokensOK(c, s.tokens) && k < |s.tokens| && Lists(kids, Downs(c.es, s.tokens[k].v))
    ensures TokensOK(c, WithoutToken(s, k, kids))
  {
    forall x | x in Downs(c.es, s.tokens[k].v)
      ensures x in c.vs && Deps(c.es, x) != {}
    {
      DepsDowns(c.es, s.tokens[k].v, x);
    }
    var ts := WithoutToken(s, k, kids);
    forall m | 0 <= m < |ts|
      ensures ts[m].v in c.vs && Deps(c.es, ts[m].v) != {}
    {
      if m < k {
        assert ts[m] == s.tokens[m];
      } else if m < |s.tokens| - 1 {
        assert ts[m] == s.tokens[m + 1];
      } else {
        assert ts[m] == Spawn(kids)[m - (|s.tokens| - 1)];
        assert ts[m].v == kids[m - (|s.tokens| - 1)];
      }
    }
  }

  lemma InvLook(c: Config, s: State, a: Action)
    requires WellFormed(c) && Inv(c, s) && a.Look? && Enabled(c, s, a)
    ensures Inv(c, Next(c, s, a))
  {
    TokensAfter(c, s, a.k, a.kids);
  }

  lemma InvMain(c: Config, s: State, a: Action)
    requires WellFormed(c) && Inv(c, s) && Enabled(c, s, a)
    requires a.MainChoose? || a.MainAll? || a.MainClosed? || a.MainCancelled? || a.Cancel?
    ensures Inv(c, Next(c, s, a))
  {
    if a.MainChoose? {
      assert s.main.todo - {a.v} + {a.v} == s.main.todo;
    }
    if a.MainClosed? {
      assert s.main.v in s.main.todo + {s.main.v};
      assert Reported(PhaseOf(s.owner, s.workers, s.main.v));
      assert false;
    }
  }

  // ----- new workers -----

  lemma InvBegin(c: Config, s: State, a: Action)
    requires WellFormed(c) && Inv(c, s) && a.Begin? && Enabled(c, s, a)
    ensures Inv(c, Next(c, s, a))
  {
    forall x | x in Downs(c.es, c.from)
      ensures x in c.vs && Deps(c.es, x) != {}
    {
      DepsDowns(c.es, c.from, x);
    }
  }

  /** Conditions on phases carry over when every vertex keeps its phase. */
  lemma SamePhases(c: Config, s: State, ws: seq<Worker>)
    requires forall v :: PhaseOf(s.owner, ws, v) == PhaseOf(s.owner, s.workers, v)
    requires ClosedOK(c, s.owner, s.workers, s.closed, s.doneClosed)
    requires MainOK(c, s.owner, s.workers, s.main, s.cancelled)
    requires LogOK(c, s.owner, s.workers, s.log)
    ensures ClosedOK(c, s.owner, ws, s.closed, s.doneClosed)
    ensures MainOK(c, s.owner, ws, s.main, s.cancelled)
    ensures LogOK(c, s.owner, ws, s.log)
  {
    if s.main == Returned(false) && !s.cancelled {
      var v :| v in c.vs && Failed(s.owner, s.workers, v);
      assert Failed(s.owner, ws, v);
    }
  }

  lemma AddWorker(c: Config, s: State, v: Vertex)
    requires WellFormed(c) && WorkersOK(c, s.workers) && GotOnce(c, s.workers) && |s.workers| > 0
    requires OwnerOK(s.owner, s.workers) && GotWasSent(c, s.owner, s.workers)
    requires v in c.vs && Deps(c.es, v) != {}
    ensures var ws := s.workers + [NewWorker(c, v)];
            && WorkersOK(c, ws) && GotOnce(c, ws) && OwnerOK(s.owner, ws) && GotWasSent(c, s.owner, ws)
            && forall x :: PhaseOf(s.owner, ws, x) == PhaseOf(s.owner, s.workers, x)
  {
    var ws := s.workers + [NewWorker(c, v)];
    assert Got(c, NewWorker(c, v)) == {};
    assert forall x :: PhaseOf(s.owner, ws, x) == PhaseOf(s.owner, s.workers, x);
    forall j, u | 0 <= j < |ws| && u in Got(c, ws[j])
      ensures Sent(PhaseOf(s.owner, ws, u), ws[j].v)
    {
      assert ws[j] == s.workers[j];
    }
  }

  lemma InvVisit(c: Config, s: State, a: Action)
    requires WellFormed(c) && Inv(c, s) && a.Visit? && Enabled(c, s, a)
    ensures Inv(c, Next(c, s, a))
  {
    TokensAfter(c, s, a.k, a.kids);
    AddWorker(c, s, s.tokens[a.k].v);
    SamePhases(c, s, s.workers + [NewWorker(c, s.tokens[a.k].v)]);
  }

  // ----- one worker moves on -----

  /** A worker that has not begun its function changes phase. */
  lemma Waiting(owner: map<Vertex, nat>, ws: seq<Worker>, i: nat, q: Phase)
    requires OwnerOK(owner, ws) && i < |ws| && !Ran(ws[i].phase) && !Ran(q)
    ensures OwnerOK(owner, ws[i := Worker(ws[i].v, q)])
    ensures forall v :: PhaseOf(owner, ws[i := Worker(ws[i].v, q)], v) == PhaseOf(owner, ws, v)
  {}

  /** The worker that ran a function changes phase. */
  lemma Working(owner: map<Vertex, nat>, ws: seq<Worker>, i: nat, q: Phase)
    requires OwnerOK(owner, ws) && i < |ws| && Ran(ws[i].phase) && Ran(q)
    ensures OwnerOK(owner, ws[i := Worker(ws[i].v, q)])
    ensures PhaseOf(owner, ws, ws[i].v) == ws[i].phase
    ensures forall v :: PhaseOf(owner, ws[i := Worker(ws[i].v, q)], v) ==
                        if v == ws[i].v then q else PhaseOf(owner, ws, v)
  {}

  lemma GotLess(c: Config, owner: map<Vertex, nat>, ws: seq<Worker>, i: nat, q: Phase)
    requires i < |ws| && WorkersOK(c, ws) && GotOnce(c, ws) && GotWasSent(c, owner, ws)
    requires WorkerOK(c, Worker(ws[i].v, q)) && Got(c, Worker(ws[i].v, q)) <= Got(c, ws[i])
    requires forall u, to :: Sent(PhaseOf(owner, ws, u), to) ==>
             Sent(PhaseOf(owner, ws[i := Worker(ws[i].v, q)], u), to)
    ensures WorkersOK(c, ws[i := Worker(ws[i].v, q)]) && GotOnce(c, ws[i := Worker(ws[i].v, q)])
    ensures GotWasSent(c, owner, ws[i := Worker(ws[i].v, q)])
  {
    var us := ws[i := Worker(ws[i].v, q)];
    forall j, u | 0 <= j < |us| && u in Got(c, us[j])
      ensures Sent(PhaseOf(owner, us, u), us[j].v)
    {
      assert u in Got(c, ws[j]) && us[j].v == ws[j].v;
      assert Sent(PhaseOf(owner, ws, u), us[j].v);
    }
  }

  lemma InvChoose(c: Config, s: State, a: Action)
    requires WellFormed(c) && Inv(c, s) && (a.Choose? || a.GiveUp?) && Enabled(c, s, a)
    ensures Inv(c, Next(c, s, a))
  {
    var q := if a.Choose? then Await(s.workers[a.i].phase.todo - {a.dep}, a.dep) else GaveUp;
    Waiting(s.owner, s.workers, a.i, q);
    GotLess(c, s.owner, s.workers, a.i, q);
    SamePhases(c, s, s.workers[a.i := Worker(s.workers[a.i].v, q)]);
  }

  /** Two workers that hold all the values of one vertex are the same worker. */
  lemma OneRunner(c: Config, s: State, i: nat, j: nat)
    requires WellFormed(c) && WorkersOK(c, s.workers) && GotOnce(c, s.workers)
    requires i < |s.workers| && j < |s.workers| && s.workers[i].v == s.workers[j].v
    requires Got(c, s.workers[i]) == Deps(c.es, s.workers[i].v) == Got(c, s.workers[j])
    ensures i == j
  {}

  /** Phases change for v only, from p to q; the conditions on channels, main walk and log then
      depend on p and q alone. */
  ghost predicate OnlyPhase(s: State, owner: map<Vertex, nat>, ws: seq<Worker>, v: Vertex, q: Phase) {
    forall x :: PhaseOf(owner, ws, x) == if x == v then q else PhaseOf(s.owner, s.workers, x)
  }

  /** The worker of a begun function moves on; what it has sent, it has still sent. */
  lemma Moves(c: Config, s: State, i: nat, q: Phase) returns (ws: seq<Worker>)
    requires WorkersOK(c, s.workers) && GotOnce(c, s.workers)
    requires OwnerOK(s.owner, s.workers) && GotWasSent(c, s.owner, s.workers)
    requires i < |s.workers| && Ran(s.workers[i].phase) && Ran(q) && WorkerOK(c, Worker(s.workers[i].v, q))
    requires forall to :: Sent(s.workers[i].phase, to) ==> Sent(q, to)
    ensures ws == s.workers[i := Worker(s.workers[i].v, q)]
    ensures WorkersOK(c, ws) && GotOnce(c, ws) && OwnerOK(s.owner, ws) && GotWasSent(c, s.owner, ws)
    ensures OnlyPhase(s, s.owner, ws, s.workers[i].v, q)
    ensures PhaseOf(s.owner, s.workers, s.workers[i].v) == s.workers[i].phase
  {
    Working(s.owner, s.workers, i, q);
    GotLess(c, s.owner, s.workers, i, q);
    ws := s.workers[i := Worker(s.workers[i].v, q)];
  }

  lemma MainKeeps(c: Config, s: State, owner: map<Vertex, nat>, ws: seq<Worker>, v: Vertex, q: Phase)
    requires OnlyPhase(s, owner, ws, v, q) && MainOK(c, s.owner, s.workers, s.main, s.cancelled)
    requires var p := PhaseOf(s.owner, s.workers, v); Reported(p) == Reported(q) && (Reported(p) ==> p.ok == q.ok)
    ensures MainOK(c, owner, ws, s.main, s.cancelled)
  {
    if s.main == Returned(false) && !s.cancelled {
      var x :| x in c.vs && Failed(s.owner, s.workers, x);
      assert Failed(owner, ws, x);
    }
  }

  lemma ClosedKeeps(c: Config, s: State, owner: map<Vertex, nat>, ws: seq<Worker>, v: Vertex, q: Phase)
    requires OnlyPhase(s, owner, ws, v, q) && ClosedOK(c, s.owner, s.workers, s.closed, s.doneClosed)
    requires var p := PhaseOf(s.owner, s.workers, v);
             && (forall to :: to in Downs(c.es, v) ==> Closed(p, to) == Closed(q, to))
             && p.Finished? == q.Finished?
    ensures ClosedOK(c, owner, ws, s.closed, s.doneClosed)
  {
    forall e | e in c.es
      ensures e in s.closed <==> Closed(PhaseOf(owner, ws, e.from), e.to)
    {
      DepsDowns(c.es, e.from, e.to);
    }
  }

  lemma LogKeeps(c: Config, s: State, ws: seq<Worker>, v: Vertex, q: Phase)
    requires OnlyPhase(s, s.owner, ws, v, q) && LogOK(c, s.owner, s.workers, s.log)
    requires var p := PhaseOf(s.owner, s.workers, v); HasResult(p) == HasResult(q) && (HasResult(p) ==> p.ok == q.ok)
    ensures LogOK(c, s.owner, ws, s.log)
  {}

  lemma {:induction false} LogSnoc(c: Config, log: seq<Event>, e: Event)
    requires LegalLog(c, log) && LegalEvent(c, log, e)
    ensures LegalLog(c, log + [e])
  {
    assert (log + [e])[..|log|] == log;
  }

  /** A move that neither the main walk, nor a channel's closing, nor the log notices. */
  lemma QuietMove(c: Config, s: State, i: nat, q: Phase)
    requires Inv(c, s) && i < |s.workers| && WorkerOK(c, Worker(s.workers[i].v, q))
    requires HasResult(s.workers[i].phase) && HasResult(q) && s.workers[i].phase.ok == q.ok
    requires !Reported(s.workers[i].phase) && !Reported(q)
    requires forall to :: Sent(s.workers[i].phase, to) ==> Sent(q, to)
    requires forall to :: to in Downs(c.es, s.workers[i].v) ==> Closed(s.workers[i].phase, to) == Closed(q, to)
    ensures Inv(c, SetPhase(s, i, q))
  {
    var ws := Moves(c, s, i, q);
    MainKeeps(c, s, s.owner, ws, s.workers[i].v, q);
    ClosedKeeps(c, s, s.owner, ws, s.workers[i].v, q);
    LogKeeps(c, s, ws, s.workers[i].v, q);
  }

  lemma InvEmit(c: Config, s: State, a: Action)
    requires Inv(c, s) && Enabled(c, s, a) && (a.ChooseTo? || a.SentAll?)
    ensures Inv(c, Next(c, s, a))
  {
    var p := s.workers[a.i].phase;
    QuietMove(c, s, a.i, if a.ChooseTo? then Offer(p.ok, p.todo - {a.to}, a.to) else Report(p.ok));
  }

  /** Worker i holds all values of its vertex, so no worker of it has begun. */
  lemma StartParts(c: Config, s: State, i: nat)
    requires WellFormed(c) && Inv(c, s) && i < |s.workers| && s.workers[i].phase == Collect({})
    ensures var v := s.workers[i].v;
            var ws, owner := s.workers[i := Worker(v, Running)], s.owner[v := i];
            && v !in s.owner && OnlyPhase(s, owner, ws, v, Running) && PhaseOf(s.owner, s.workers, v) == GaveUp
            && WorkersOK(c, ws) && GotOnce(c, ws) && OwnerOK(owner, ws) && GotWasSent(c, owner, ws)
  {
    hide TokensOK, BegunOK, ClosedOK, MainOK, LogOK;
    var v := s.workers[i].v;
    var ws := s.workers[i := Worker(v, Running)];
    assert Got(c, s.workers[i]) == Deps(c.es, v);
    if v in s.owner { OneRunner(c, s, i, s.owner[v]); }
    var owner := s.owner[v := i];
    assert OnlyPhase(s, owner, ws, v, Running);
    assert PhaseOf(s.owner, s.workers, v) == GaveUp;
    forall j, u | 0 <= j < |ws| && u in Got(c, ws[j])
      ensures Sent(PhaseOf(owner, ws, u), ws[j].v)
    {
      assert u in Got(c, s.workers[j]) && ws[j].v == s.workers[j].v;
      assert Sent(PhaseOf(s.owner, s.workers, u), ws[j].v);
    }
  }

  lemma StartLegal(c: Config, s: State, i: nat)
    requires GotWasSent(c, s.owner, s.workers) && LogOK(c, s.owner, s.workers, s.log)
    requires i < |s.workers| && s.workers[i].phase == Collect({}) && s.workers[i].v !in s.owner
    ensures LegalEvent(c, s.log, Started(s.workers[i].v))
  {
    var v := s.workers[i].v;
    assert Got(c, s.workers[i]) == Deps(c.es, v);
    forall u | u in Deps(c.es, v)
      ensures HasEnded(s.log, u)
    {
      assert Sent(PhaseOf(s.owner, s.workers, u), v);
      assert Ended(u, PhaseOf(s.owner, s.workers, u).ok) in s.log;
    }
  }

  /** The conditions that only see phases, when v goes from no phase to Running. */
  lemma StartSeen(c: Config, s: State, owner: map<Vertex, nat>, ws: seq<Worker>, v: Vertex)
    requires OnlyPhase(s, owner, ws, v, Running) && PhaseOf(s.owner, s.workers, v) == GaveUp
    requires v !in s.owner && owner.Keys == s.owner.Keys + {v} && LegalEvent(c, s.log, Started(v))
    requires ClosedOK(c, s.owner, s.workers, s.closed, s.doneClosed)
    requires MainOK(c, s.owner, s.workers, s.main, s.cancelled) && LogOK(c, s.owner, s.workers, s.log)
    ensures ClosedOK(c, owner, ws, s.closed, s.doneClosed) && MainOK(c, owner, ws, s.main, s.cancelled)
    ensures LogOK(c, owner, ws, s.log + [Started(v)])
  {
    MainKeeps(c, s, owner, ws, v, Running);
    ClosedKeeps(c, s, owner, ws, v, Running);
    LogSnoc(c, s.log, Started(v));
  }

  lemma InvRunFn(c: Config, s: State, a: Action)
    requires WellFormed(c) && Inv(c, s) && a.RunFn? && Enabled(c, s, a)
    ensures Inv(c, Next(c, s, a))
  {
    StartParts(c, s, a.i);
    StartLegal(c, s, a.i);
    var v := s.workers[a.i].v;
    StartSeen(c, s, s.owner[v := a.i], s.workers[a.i := Worker(v, Running)], v);
  }

  lemma InvEndFn(c: Config, s: State, a: Action)
    requires WellFormed(c) && Inv(c, s) && a.EndFn? && Enabled(c, s, a)
    ensures Inv(c, Next(c, s, a))
  {
    var i, v := a.i, s.workers[a.i].v;
    var q := Emit(a.ok, Downs(c.es, v));
    var ws := Moves(c, s, i, q);
    MainKeeps(c, s, s.owner, ws, v, q);
    ClosedKeeps(c, s, s.owner, ws, v, q);
    EndLog(c, s, ws, v, q);
  }

  lemma EndLog(c: Config, s: State, ws: seq<Worker>, v: Vertex, q: Phase)
    requires OnlyPhase(s, s.owner, ws, v, q) && LogOK(c, s.owner, s.workers, s.log)
    requires PhaseOf(s.owner, s.workers, v).Running? && HasResult(q) && v in s.owner
    ensures LogOK(c, s.owner, ws, s.log + [Ended(v, q.ok)])
  {
    assert LegalEvent(c, s.log, Ended(v, q.ok));
    LogSnoc(c, s.log, Ended(v, q.ok));
  }

  lemma InvCloseCh(c: Config, s: State, a: Action)
    requires WellFormed(c) && Inv(c, s) && Enabled(c, s, a) && a.CloseCh?
    ensures Inv(c, Next(c, s, a))
  {
    var i, v, p := a.i, s.workers[a.i].v, s.workers[a.i].phase;
    var q := Emit(p.ok, p.todo);
    var ws := Moves(c, s, i, q);
    MainKeeps(c, s, s.owner, ws, v, q);
    LogKeeps(c, s, ws, v, q);
    CloseOne(c, s, ws, v, p.to, q);
  }

  lemma CloseOne(c: Config, s: State, ws: seq<Worker>, v: Vertex, to: Vertex, q: Phase)
    requires OnlyPhase(s, s.owner, ws, v, q) && ClosedOK(c, s.owner, s.workers, s.closed, s.doneClosed)
    requires var p := PhaseOf(s.owner, s.workers, v);
             p.CloseDep? && p.to == to && q == Emit(p.ok, p.todo) && to !in p.todo
    requires to in Downs(c.es, v)
    ensures ClosedOK(c, s.owner, ws, s.closed + {Edge(v, to)}, s.doneClosed)
  {
    DepsDowns(c.es, v, to);
    var closed := s.closed + {Edge(v, to)};
    forall e
      ensures e in closed <==> e in c.es && Closed(PhaseOf(s.owner, ws, e.from), e.to)
    {
      if e.from == v && e.to == to { assert e == Edge(v, to); }
    }
  }

  lemma CloseLast(c: Config, s: State, ws: seq<Worker>, v: Vertex, q: Phase)
    requires OnlyPhase(s, s.owner, ws, v, q) && ClosedOK(c, s.owner, s.workers, s.closed, s.doneClosed)
    requires PhaseOf(s.owner, s.workers, v).CloseDone? && q.Finished?
    ensures ClosedOK(c, s.owner, ws, s.closed, s.doneClosed + {v})
  {
    assert forall x, to :: Closed(PhaseOf(s.owner, ws, x), to) == Closed(PhaseOf(s.owner, s.workers, x), to);
  }

  lemma InvCloseMain(c: Config, s: State, a: Action)
    requires WellFormed(c) && Inv(c, s) && Enabled(c, s, a) && a.CloseMain?
    ensures Inv(c, Next(c, s, a))
  {
    var i, v, p := a.i, s.workers[a.i].v, s.workers[a.i].phase;
    var q := Finished(p.ok);
    var ws := Moves(c, s, i, q);
    MainKeeps(c, s, s.owner, ws, v, q);
    LogKeeps(c, s, ws, v, q);
    CloseLast(c, s, ws, v, q);
  }

  lemma InvSendMain(c: Config, s: State, a: Action)
    requires WellFormed(c) && Inv(c, s) && Enabled(c, s, a) && a.SendMain?
    ensures Inv(c, Next(c, s, a))
  {
    var i, v, p := a.i, s.workers[a.i].v, s.workers[a.i].phase;
    var q := CloseDone(p.ok);
    var ws := Moves(c, s, i, q);
    ClosedKeeps(c, s, s.owner, ws, v, q);
    LogKeeps(c, s, ws, v, q);
    HeardOne(c, s, ws, v, q);
  }

  /** The main walk receives the result of v, which it was waiting for. */
  lemma HeardOne(c: Config, s: State, ws: seq<Worker>, v: Vertex, q: Phase)
    requires OnlyPhase(s, s.owner, ws, v, q) && Reported(q) && v in c.vs
    requires s.main.Listen? && s.main.v == v && MainOK(c, s.owner, s.workers, s.main, s.cancelled)
    ensures MainOK(c, s.owner, ws, if q.ok then Pick(s.main.todo) else Returned(false), s.cancelled)
  {
    assert PhaseOf(s.owner, ws, v) == q;
    assert !q.ok ==> Failed(s.owner, ws, v);
  }

  /** A value passes from worker i to worker j, whose vertex has no other worker with that value. */
  lemma SendParts(c: Config, s: State, i: nat, j: nat)
    requires CanSend(s, i, j) && Inv(c, s)
    ensures var ws := AfterSend(s, i, j);
            && WorkersOK(c, ws) && GotOnce(c, ws) && OwnerOK(s.owner, ws) && GotWasSent(c, s.owner, ws)
            && OnlyPhase(s, s.owner, ws, s.workers[i].v, ws[i].phase)
            && PhaseOf(s.owner, s.workers, s.workers[i].v) == s.workers[i].phase
  {
    var u, w, p, r := s.workers[i].v, s.workers[j].v, s.workers[i].phase, s.workers[j].phase;
    var q := CloseDep(p.ok, p.todo, p.to);
    var mid := Moves(c, s, i, q);
    Waiting(s.owner, mid, j, Collect(r.todo));
    forall k | 0 <= k < |mid| && k != j && mid[k].v == w
      ensures u !in Got(c, mid[k])
    {
      assert Got(c, mid[k]) == Got(c, s.workers[k]);
      assert !Sent(PhaseOf(s.owner, s.workers, u), w);
    }
    GotOneMore(c, s.owner, mid, j);
  }

  lemma GotOneMore(c: Config, owner: map<Vertex, nat>, ws: seq<Worker>, j: nat)
    requires j < |ws| && ws[j].phase.Await? && OwnerOK(owner, ws)
    requires WorkersOK(c, ws) && GotOnce(c, ws) && GotWasSent(c, owner, ws)
    requires Sent(PhaseOf(owner, ws, ws[j].phase.dep), ws[j].v)
    requires forall k :: 0 <= k < |ws| && k != j && ws[k].v == ws[j].v ==> ws[j].phase.dep !in Got(c, ws[k])
    ensures var us := ws[j := Worker(ws[j].v, Collect(ws[j].phase.todo))];
            WorkersOK(c, us) && GotOnce(c, us) && GotWasSent(c, owner, us)
  {
    var us := ws[j := Worker(ws[j].v, Collect(ws[j].phase.todo))];
    Waiting(owner, ws, j, Collect(ws[j].phase.todo));
    assert Got(c, us[j]) == Got(c, ws[j]) + {ws[j].phase.dep};
    forall k, u | 0 <= k < |us| && u in Got(c, us[k])
      ensures Sent(PhaseOf(owner, us, u), us[k].v)
    {
      assert us[k].v == ws[k].v;
      assert Sent(PhaseOf(owner, ws, u), ws[k].v);
    }
  }

  lemma InvSend(c: Config, s: State, a: Action)
    requires Inv(c, s) && Enabled(c, s, a) && a.Send?
    ensures Inv(c, Next(c, s, a))
  {
    SendParts(c, s, a.i, a.j);
    var ws := AfterSend(s, a.i, a.j);
    var u, q := s.workers[a.i].v, ws[a.i].phase;
    MainKeeps(c, s, s.owner, ws, u, q);
    ClosedKeeps(c, s, s.owner, ws, u, q);
    LogKeeps(c, s, ws, u, q);
  }

  lemma InvStep(c: Config, s: State, a: Action)
    requires WellFormed(c) && Inv(c, s) && Enabled(c, s, a)
    ensures Inv(c, Next(c, s, a))
  {
    match a
    case Begin(_) => InvBegin(c, s, a);
    case Look(_, _) => InvLook(c, s, a);
    case Visit(_, _) => InvVisit(c, s, a);
    case Choose(_, _) => InvChoose(c, s, a);
    case GiveUp(_) => InvChoose(c, s, a);
    case RunFn(_) => InvRunFn(c, s, a);
    case EndFn(_, _) => InvEndFn(c, s, a);
    case ChooseTo(_, _) => InvEmit(c, s, a);
    case Send(_, _) => InvSend(c, s, a);
    case CloseCh(_) => InvCloseCh(c, s, a);
    case SentAll(_) => InvEmit(c, s, a);
    case SendMain(_) => InvSendMain(c, s, a);
    case CloseMain(_) => InvCloseMain(c, s, a);
    case MainChoose(_) => InvMain(c, s, a);
    case MainAll => InvMain(c, s, a);
    case MainClosed => InvMain(c, s, a);
    case MainCancelled => InvMain(c, s, a);
    case Cancel => InvMain(c, s, a);
  }

  lemma {:induction false} InvSteps(c: Config, s: State, acts: seq<Action>, t: State)
    requires WellFormed(c) && Inv(c, s) && Steps(c, s, acts, t)
    ensures Inv(c, t)
    decreases |acts|
  {
    if acts != [] {
      InvStep(c, s, acts[0]);
      InvSteps(c, Next(c, s, acts[0]), acts[1..], t);
    }
  }

  lemma InvReachable(c: Config, s: State)
    requires WellFormed(c) && Reachable(c, s)
    ensures Inv(c, s)
  {
    var acts :| Steps(c, Init, acts, s);
    InvSteps(c, Init, acts, s);
  }

  // ----- what a user of the executor relies on -----

  /** However traversals race for visited, no goroutine sends on or closes a closed channel. */
  lemma NoPanic(c: Config, s: State)
    requires WellFormed(c) && Reachable(c, s)
    ensures !WouldPanic(s)
  {
    InvReachable(c, s);
    forall i | 0 <= i < |s.workers|
      ensures !PanicsAt(s, s.workers[i])
    {
      var w := s.workers[i];
      if Ran(w.phase) {
        assert PhaseOf(s.owner, s.workers, w.v) == w.phase;
      }
    }
  }

  /** However traversals race for visited, no vertex function begins twice. */
  lemma AtMostOnce(c: Config, s: State, i: nat, j: nat)
    requires WellFormed(c) && Reachable(c, s)
    requires i < j < |s.log| && s.log[i].Started? && s.log[j].Started?
    ensures s.log[i].v != s.log[j].v
  {
    InvReachable(c, s);
    LegalAt(c, s.log, j);
    assert s.log[..j][i] == s.log[i];
  }

  lemma {:induction false} LegalAt(c: Config, log: seq<Event>, j: nat)
    requires LegalLog(c, log) && j < |log|
    ensures LegalLog(c, log[..j]) && LegalEvent(c, log[..j], log[j])
    decreases |log|
  {
    if j < |log| - 1 {
      LegalAt(c, log[..|log| - 1], j);
      assert log[..|log| - 1][..j] == log[..j];
    }
  }

  /** When the function of w begins, that of every vertex with a path to w has returned. */
  lemma {:induction false} AncestorsEnded(c: Config, log: seq<Event>, u: Vertex, p: seq<Vertex>, w: Vertex, j: nat)
    requires LegalLog(c, log) && j < |log| && log[j] == Started(w)
    requires Walk(c.es, u, p, w) && p != []
    ensures HasEnded(log[..j], u)
    decreases |p|
  {
    var y := WalkLast(c.es, u, p, w);
    DepsDowns(c.es, y, w);
    LegalAt(c, log, j);
    if |p| > 1 {
      var ok: bool :| Ended(y, ok) in log[..j];
      var e :| 0 <= e < j && log[e] == Ended(y, ok);
      LegalAt(c, log, e);
      var b :| 0 <= b < e && log[b] == Started(y);
      AncestorsEnded(c, log, u, p[..|p| - 1], y, b);
      assert log[..b] <= log[..j];
    }
  }

  lemma StartAfterAncestors(c: Config, s: State, u: Vertex, w: Vertex, j: nat)
    requires WellFormed(c) && Reachable(c, s) && j < |s.log| && s.log[j] == Started(w)
    requires Reaches(c.es, u, w) && u != w
    ensures HasEnded(s.log[..j], u)
  {
    InvReachable(c, s);
    var p :| Walk(c.es, u, p, w);
    AncestorsEnded(c, s.log, u, p, w, j);
  }

  /** Success means that every function ran, once, and returned true; failure means that one
      returned false or the context was cancelled. */
  lemma ResultSound(c: Config, s: State)
    requires WellFormed(c) && Reachable(c, s) && s.main.Returned?
    ensures s.main.success ==> forall v :: v in c.vs ==> Started(v) in s.log && Ended(v, true) in s.log
    ensures !s.main.success ==> s.cancelled || exists v :: v in c.vs && Ended(v, false) in s.log
  {
    InvReachable(c, s);
    if !s.main.success && !s.cancelled {
      var v :| v in c.vs && Failed(s.owner, s.workers, v);
      assert Ended(v, false) in s.log;
    }
  }

  /** The main walk hears every vertex once, and never the close of its channel: the value that a closed
      channel gives is never taken for a failure. */
  lemma NeverHearsClose(c: Config, s: State)
    requires WellFormed(c) && Reachable(c, s)
    ensures !Enabled(c, s, MainClosed)
  {
    InvReachable(c, s);
    if s.main.Listen? { assert s.main.v in s.main.todo + {s.main.v}; }
  }

  // ----- what lies out of reach -----

  /** Only what the start vertex reaches is ever visited. */
  ghost predicate InReach(c: Config, s: State) {
    && (forall k :: 0 <= k < |s.tokens| ==> Reaches(c.es, c.from, s.tokens[k].v))
    && (forall i :: 0 <= i < |s.workers| ==> Reaches(c.es, c.from, s.workers[i].v))
  }

  lemma KidsInReach(c: Config, v: Vertex, kids: seq<Vertex>)
    requires Reaches(c.es, c.from, v) && Lists(kids, Downs(c.es, v))
    ensures forall k :: 0 <= k < |kids| ==> Reaches(c.es, c.from, kids[k])
  {
    forall k | 0 <= k < |kids|
      ensures Reaches(c.es, c.from, kids[k])
    {
      DepsDowns(c.es, v, kids[k]);
      ReachesEdge(c.es, c.from, v, kids[k]);
    }
  }

  lemma InReachStep(c: Config, s: State, a: Action)
    requires InReach(c, s) && Enabled(c, s, a)
    ensures InReach(c, Next(c, s, a))
  {
    hide Reaches;
    ReachesSelf(c.es, c.from);
    if a.Begin? { KidsInReach(c, c.from, a.kids); }
    if a.Look? || a.Visit? {
      KidsInReach(c, s.tokens[a.k].v, a.kids);
    }
  }

  lemma {:induction false} InReachSteps(c: Config, s: State, acts: seq<Action>, t: State)
    requires InReach(c, s) && Steps(c, s, acts, t)
    ensures InReach(c, t)
    decreases |acts|
  {
    hide InReach;
    if acts != [] {
      InReachStep(c, s, acts[0]);
      InReachSteps(c, Next(c, s, acts[0]), acts[1..], t);
    }
  }

  /** A run can succeed only if the start vertex reaches every vertex: on any other vertex the main walk
      waits for ever. */
  lemma SuccessNeedsRoot(c: Config, s: State)
    requires WellFormed(c) && Reachable(c, s) && s.main == Returned(true)
    ensures Rooted(c.vs, c.es, c.from)
  {
    InvReachable(c, s);
    var acts :| Steps(c, Init, acts, s);
    InReachSteps(c, Init, acts, s);
    forall v | v in c.vs
      ensures Reaches(c.es, c.from, v)
    {
      assert Reported(PhaseOf(s.owner, s.workers, v));
      assert s.workers[s.owner[v]].v == v;
    }
  }
}
