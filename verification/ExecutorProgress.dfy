/** When the executor can get stuck. Here the visited check is atomic. */
module ExecutorProgress {
  import opened Graphs
  import opened Executor
  import opened ExecutorSafety

  /** What an atomic visited check adds: one worker for each visited vertex, which receives every
      value that is sent to it; and a token for every vertex still to be visited from there. */
  ghost predicate Atomic(c: Config, s: State) {
    && (forall k :: 0 <= k < |s.tokens| ==> s.tokens[k].Check?)
    && (!s.main.Idle? ==> c.from in s.visited)
    && OnePerVertex(s.visited, s.workers)
    && Covered(c, s.visited, s.tokens)
    && AllReceived(c, s.owner, s.workers)
    && SentToVisited(c, s.owner, s.workers, s.visited)
  }

  ghost predicate OnePerVertex(visited: set<Vertex>, ws: seq<Worker>) {
    && (forall i, j :: 0 <= i < j < |ws| ==> ws[i].v != ws[j].v)
    && (forall i :: 0 <= i < |ws| ==> ws[i].v in visited)
    && (forall v :: v in visited ==> exists i :: 0 <= i < |ws| && ws[i].v == v)
  }

  ghost predicate Covered(c: Config, visited: set<Vertex>, tokens: seq<Token>) {
    forall v, w :: v in visited && w in Downs(c.es, v) && w !in visited ==> Check(w) in tokens
  }

  ghost predicate AllReceived(c: Config, owner: map<Vertex, nat>, ws: seq<Worker>) {
    forall j :: 0 <= j < |ws| ==>
      && !ws[j].phase.GaveUp?
      && forall u :: u in Deps(c.es, ws[j].v) && Sent(PhaseOf(owner, ws, u), ws[j].v) ==> u in Got(c, ws[j])
  }

  ghost predicate SentToVisited(c: Config, owner: map<Vertex, nat>, ws: seq<Worker>, visited: set<Vertex>) {
    forall u, w :: w in Downs(c.es, u) && Sent(PhaseOf(owner, ws, u), w) ==> w in visited
  }

  // ----- Atomic is kept -----

  lemma AtomicBegin(c: Config, s: State, a: Action)
    requires WellFormed(c) && Inv(c, s) && a.Begin? && Enabled(c, s, a)
    ensures Atomic(c, Next(c, s, a))
  {
    var t := Next(c, s, a);
    assert t.workers[0].v == c.from;
    assert forall i :: 0 <= i < |a.kids| ==> t.tokens[i] == Check(a.kids[i]);
    forall w | w in Downs(c.es, c.from)
      ensures Check(w) in t.tokens
    {
      var i :| 0 <= i < |a.kids| && a.kids[i] == w;
      assert t.tokens[i] == Check(w);
    }
  }

  lemma CoveredAfter(c: Config, s: State, k: nat, kids: seq<Vertex>, v: Vertex)
    requires k < |s.tokens| && s.tokens[k] == Check(v) && Lists(kids, Downs(c.es, v))
    requires Covered(c, s.visited, s.tokens)
    requires forall k :: 0 <= k < |s.tokens| ==> s.tokens[k].Check?
    ensures Covered(c, s.visited + {v}, WithoutToken(s, k, kids))
    ensures forall m :: 0 <= m < |WithoutToken(s, k, kids)| ==> WithoutToken(s, k, kids)[m].Check?
  {
    var ts := WithoutToken(s, k, kids);
    var rest := s.tokens[..k] + s.tokens[k + 1..];
    assert ts == rest + Spawn(kids);
    forall x, w | x in s.visited + {v} && w in Downs(c.es, x) && w !in s.visited + {v}
      ensures Check(w) in ts
    {
      if x == v {
        var i :| 0 <= i < |kids| && kids[i] == w;
        assert ts[|rest| + i] == Spawn(kids)[i];
      } else {
        var m :| 0 <= m < |s.tokens| && s.tokens[m] == Check(w);
        assert ts[if m < k then m else m - 1] == Check(w);
      }
    }
    forall m | 0 <= m < |ts|
      ensures ts[m].Check?
    {
      if m < |rest| { assert ts[m] == s.tokens[if m < k then m else m + 1]; }
    }
  }

  lemma AtomicLook(c: Config, s: State, a: Action)
    requires c.atomic && Atomic(c, s) && a.Look? && Enabled(c, s, a)
    ensures Atomic(c, Next(c, s, a))
  {
    var v := s.tokens[a.k].v;
    CoveredAfter(c, s, a.k, a.kids, v);
    assert s.visited + {v} == s.visited;
  }

  lemma AtomicVisit(c: Config, s: State, a: Action)
    requires WellFormed(c) && Inv(c, s) && c.atomic && Atomic(c, s) && a.Visit? && Enabled(c, s, a)
    ensures Atomic(c, Next(c, s, a))
  {
    var v := s.tokens[a.k].v;
    CoveredAfter(c, s, a.k, a.kids, v);
    AddWorker(c, s, v);
    AddReceiver(c, s, v);
  }

  lemma AddReceiver(c: Config, s: State, v: Vertex)
    requires OnePerVertex(s.visited, s.workers) && AllReceived(c, s.owner, s.workers) && v !in s.visited
    requires SentToVisited(c, s.owner, s.workers, s.visited)
    requires forall x :: PhaseOf(s.owner, s.workers + [NewWorker(c, v)], x) == PhaseOf(s.owner, s.workers, x)
    ensures var ws := s.workers + [NewWorker(c, v)];
            && OnePerVertex(s.visited + {v}, ws) && AllReceived(c, s.owner, ws)
            && SentToVisited(c, s.owner, ws, s.visited + {v})
  {
    var ws := s.workers + [NewWorker(c, v)];
    forall x | x in s.visited + {v}
      ensures exists i :: 0 <= i < |ws| && ws[i].v == x
    {
      if x == v {
        assert ws[|s.workers|].v == x;
      } else {
        var i :| 0 <= i < |s.workers| && s.workers[i].v == x;
        assert ws[i].v == x;
      }
    }
    forall j | 0 <= j < |ws|
      ensures !ws[j].phase.GaveUp?
      ensures forall u :: u in Deps(c.es, ws[j].v) && Sent(PhaseOf(s.owner, ws, u), ws[j].v) ==> u in Got(c, ws[j])
    {
      if j < |s.workers| {
        assert ws[j] == s.workers[j];
      } else {
        forall u | u in Deps(c.es, v)
          ensures !Sent(PhaseOf(s.owner, ws, u), v)
        {
          DepsDowns(c.es, u, v);
        }
      }
    }
  }

  /** A worker never finds a closed channel where it still waits for a value. */
  lemma NeverGivesUp(c: Config, s: State, i: nat)
    requires Inv(c, s) && Atomic(c, s)
    ensures !Enabled(c, s, GiveUp(i))
  {
    if i < |s.workers| && s.workers[i].phase.Await? {
      var dep := s.workers[i].phase.dep;
      assert dep !in Got(c, s.workers[i]);
    }
  }

  /** Worker i changes phase; no phase of a begun function sends more than before. */
  lemma SameReceived(c: Config, s: State, owner: map<Vertex, nat>, i: nat, q: Phase)
    requires OnePerVertex(s.visited, s.workers) && AllReceived(c, s.owner, s.workers)
    requires SentToVisited(c, s.owner, s.workers, s.visited)
    requires i < |s.workers| && !q.GaveUp? && Got(c, Worker(s.workers[i].v, q)) == Got(c, s.workers[i])
    requires forall u, to :: to in Downs(c.es, u) ==>
               Sent(PhaseOf(owner, s.workers[i := Worker(s.workers[i].v, q)], u), to) ==>
                 Sent(PhaseOf(s.owner, s.workers, u), to)
    ensures var ws := s.workers[i := Worker(s.workers[i].v, q)];
            OnePerVertex(s.visited, ws) && AllReceived(c, owner, ws) && SentToVisited(c, owner, ws, s.visited)
  {
    var ws := s.workers[i := Worker(s.workers[i].v, q)];
    forall x | x in s.visited
      ensures exists k :: 0 <= k < |ws| && ws[k].v == x
    {
      var k :| 0 <= k < |s.workers| && s.workers[k].v == x;
      assert ws[k].v == x;
    }
    forall j | 0 <= j < |ws|
      ensures forall u :: u in Deps(c.es, ws[j].v) && Sent(PhaseOf(owner, ws, u), ws[j].v) ==> u in Got(c, ws[j])
    {
      assert ws[j].v == s.workers[j].v && Got(c, ws[j]) == Got(c, s.workers[j]);
      forall u | u in Deps(c.es, ws[j].v) && Sent(PhaseOf(owner, ws, u), ws[j].v)
        ensures u in Got(c, ws[j])
      {
        DepsDowns(c.es, u, ws[j].v);
        assert Sent(PhaseOf(s.owner, s.workers, u), s.workers[j].v);
      }
    }
  }

  lemma AtomicChoose(c: Config, s: State, a: Action)
    requires Inv(c, s) && Atomic(c, s) && a.Choose? && Enabled(c, s, a)
    ensures Atomic(c, Next(c, s, a))
  {
    var q := Await(s.workers[a.i].phase.todo - {a.dep}, a.dep);
    Waiting(s.owner, s.workers, a.i, q);
    SameReceived(c, s, s.owner, a.i, q);
  }

  lemma AtomicRunFn(c: Config, s: State, a: Action)
    requires WellFormed(c) && Inv(c, s) && Atomic(c, s) && a.RunFn? && Enabled(c, s, a)
    ensures Atomic(c, Next(c, s, a))
  {
    StartParts(c, s, a.i);
    SameReceived(c, s, s.owner[s.workers[a.i].v := a.i], a.i, Running);
  }

  /** The phases through which a worker goes after its function returned, save for sending. */
  lemma AtomicMove(c: Config, s: State, a: Action)
    requires Inv(c, s) && Atomic(c, s) && Enabled(c, s, a)
    requires a.EndFn? || a.ChooseTo? || a.CloseCh? || a.SentAll? || a.SendMain? || a.CloseMain?
    ensures Atomic(c, Next(c, s, a))
  {
    if a.EndFn? || a.ChooseTo? || a.CloseCh? {
      EmitSendsNoMore(c, s, a);
    } else {
      ReportSendsNoMore(c, s, a);
    }
    MoveReceives(c, s, a.i, Next(c, s, a).workers[a.i].phase);
  }

  lemma MoveReceives(c: Config, s: State, i: nat, q: Phase)
    requires Inv(c, s) && i < |s.workers| && Ran(s.workers[i].phase) && Ran(q)
    requires SendsNoMore(c, s.workers[i].v, s.workers[i].phase, q)
    requires OnePerVertex(s.visited, s.workers) && AllReceived(c, s.owner, s.workers)
    requires SentToVisited(c, s.owner, s.workers, s.visited)
    ensures var ws := s.workers[i := Worker(s.workers[i].v, q)];
            OnePerVertex(s.visited, ws) && AllReceived(c, s.owner, ws) && SentToVisited(c, s.owner, ws, s.visited)
  {
    var ws := Moves(c, s, i, q);
    SameReceived(c, s, s.owner, i, q);
  }

  ghost predicate IsMove(c: Config, s: State, t: State, i: nat) {
    && i < |s.workers| && i < |t.workers|
    && t == s.(workers := s.workers[i := Worker(s.workers[i].v, t.workers[i].phase)],
               main := t.main, closed := t.closed, doneClosed := t.doneClosed, log := t.log)
    && !t.main.Idle?
    && Ran(s.workers[i].phase) && Ran(t.workers[i].phase)
  }

  ghost predicate SendsNoMore(c: Config, v: Vertex, p: Phase, q: Phase) {
    && WorkerOK(c, Worker(v, q))
    && (forall to :: Sent(p, to) ==> Sent(q, to))
    && (forall to :: to in Downs(c.es, v) && Sent(q, to) ==> Sent(p, to))
  }

  lemma EmitSendsNoMore(c: Config, s: State, a: Action)
    requires WorkersOK(c, s.workers) && BegunOK(s) && Enabled(c, s, a)
    requires a.EndFn? || a.ChooseTo? || a.CloseCh?
    ensures IsMove(c, s, Next(c, s, a), a.i)
    ensures SendsNoMore(c, s.workers[a.i].v, s.workers[a.i].phase, Next(c, s, a).workers[a.i].phase)
  {
    assert WorkerOK(c, s.workers[a.i]);
  }

  lemma ReportSendsNoMore(c: Config, s: State, a: Action)
    requires WorkersOK(c, s.workers) && BegunOK(s) && Enabled(c, s, a)
    requires a.SentAll? || a.SendMain? || a.CloseMain?
    ensures IsMove(c, s, Next(c, s, a), a.i)
    ensures SendsNoMore(c, s.workers[a.i].v, s.workers[a.i].phase, Next(c, s, a).workers[a.i].phase)
  {
    assert WorkerOK(c, s.workers[a.i]);
  }

  lemma AtomicSend(c: Config, s: State, a: Action)
    requires Inv(c, s) && Atomic(c, s) && a.Send? && Enabled(c, s, a)
    ensures Atomic(c, Next(c, s, a))
  {
    SendReceives(c, s, a.i, a.j);
  }

  lemma SendReceives(c: Config, s: State, i: nat, j: nat)
    requires CanSend(s, i, j) && Inv(c, s)
    requires OnePerVertex(s.visited, s.workers) && AllReceived(c, s.owner, s.workers)
    requires SentToVisited(c, s.owner, s.workers, s.visited)
    ensures var ws := AfterSend(s, i, j);
            OnePerVertex(s.visited, ws) && AllReceived(c, s.owner, ws) && SentToVisited(c, s.owner, ws, s.visited)
  {
    SendParts(c, s, i, j);
    SendGot(c, s, i, j);
    var ws := AfterSend(s, i, j);
    OneReceives(c, s, ws, j, s.workers[i].v, ws[i].phase);
  }

  lemma SendGot(c: Config, s: State, i: nat, j: nat)
    requires CanSend(s, i, j) && WorkersOK(c, s.workers)
    ensures var ws := AfterSend(s, i, j);
            && (forall k :: 0 <= k < |ws| ==>
              ws[k].v == s.workers[k].v && (s.workers[k].phase.GaveUp? <==> ws[k].phase.GaveUp?))
            && (forall k :: 0 <= k < |ws| && k != j ==> Got(c, ws[k]) == Got(c, s.workers[k]))
            && Got(c, ws[j]) == Got(c, s.workers[j]) + {s.workers[i].v}
            && (forall y :: Sent(ws[i].phase, y) ==> Sent(s.workers[i].phase, y) || y == ws[j].v)
  {
    assert WorkerOK(c, s.workers[j]) && WorkerOK(c, s.workers[i]);
  }

  lemma OneReceives(c: Config, s: State, ws: seq<Worker>, j: nat, u: Vertex, q: Phase)
    requires OnePerVertex(s.visited, s.workers) && AllReceived(c, s.owner, s.workers)
    requires SentToVisited(c, s.owner, s.workers, s.visited)
    requires |ws| == |s.workers| && j < |ws|
    requires forall k :: 0 <= k < |ws| ==> ws[k].v == s.workers[k].v && !ws[k].phase.GaveUp?
    requires forall k :: 0 <= k < |ws| && k != j ==> Got(c, ws[k]) == Got(c, s.workers[k])
    requires Got(c, ws[j]) == Got(c, s.workers[j]) + {u}
    requires OnlyPhase(s, s.owner, ws, u, q)
    requires forall y :: Sent(q, y) ==> Sent(PhaseOf(s.owner, s.workers, u), y) || y == ws[j].v
    ensures OnePerVertex(s.visited, ws) && AllReceived(c, s.owner, ws) && SentToVisited(c, s.owner, ws, s.visited)
  {
    forall x | x in s.visited
      ensures exists k :: 0 <= k < |ws| && ws[k].v == x
    {
      var k :| 0 <= k < |s.workers| && s.workers[k].v == x;
      assert ws[k].v == x;
    }
    forall k, x | 0 <= k < |ws| && x in Deps(c.es, ws[k].v) && Sent(PhaseOf(s.owner, ws, x), ws[k].v)
      ensures x in Got(c, ws[k])
    {
      assert x == u ==> PhaseOf(s.owner, ws, x) == q;
      assert Sent(PhaseOf(s.owner, s.workers, x), ws[k].v) || (x == u && k == j);
    }
  }

  lemma AtomicStep(c: Config, s: State, a: Action)
    requires WellFormed(c) && c.atomic && Inv(c, s) && Atomic(c, s) && Enabled(c, s, a)
    ensures Atomic(c, Next(c, s, a))
  {
    match a
    case Begin(_) => AtomicBegin(c, s, a);
    case Look(_, _) => AtomicLook(c, s, a);
    case Visit(_, _) => AtomicVisit(c, s, a);
    case Choose(_, _) => AtomicChoose(c, s, a);
    case GiveUp(i) => NeverGivesUp(c, s, i);
    case RunFn(_) => AtomicRunFn(c, s, a);
    case Send(_, _) => AtomicSend(c, s, a);
    case MainChoose(_) =>
    case MainAll =>
    case MainClosed =>
    case MainCancelled =>
    case Cancel =>
    case _ => AtomicMove(c, s, a);
  }

  lemma {:induction false} AtomicSteps(c: Config, s: State, acts: seq<Action>, t: State)
    requires WellFormed(c) && c.atomic && Inv(c, s) && Atomic(c, s) && Steps(c, s, acts, t)
    ensures Inv(c, t) && Atomic(c, t)
    decreases |acts|
  {
    if acts != [] {
      InvStep(c, s, acts[0]);
      AtomicStep(c, s, acts[0]);
      AtomicSteps(c, Next(c, s, acts[0]), acts[1..], t);
    }
  }

  // ----- stuck states -----

  lemma {:induction false} SomeList(vs: set<Vertex>) returns (kids: seq<Vertex>)
    ensures Lists(kids, vs)
    decreases vs
  {
    if vs == {} {
      kids := [];
    } else {
      var v :| v in vs;
      var rest := SomeList(vs - {v});
      kids := [v] + rest;
    }
  }

  ghost predicate Blocked(w: Worker) {
    w.phase.Await? || w.phase.Offer?
  }

  /** No sender and receiver have found each other. */
  ghost predicate NoHandoff(ws: seq<Worker>) {
    forall i, j :: 0 <= i < |ws| && 0 <= j < |ws| && ws[i].phase.Offer? && ws[j].phase.Await? ==>
      !(ws[i].phase.to == ws[j].v && ws[j].phase.dep == ws[i].v)
  }

  /** What one worker has sent, the other holds. */
  ghost predicate HeldIffSent(c: Config, ws: seq<Worker>) {
    forall i, j :: 0 <= i < |ws| && 0 <= j < |ws| && ws[i].v in Deps(c.es, ws[j].v) ==>
      (ws[i].v in Got(c, ws[j]) <==> Sent(ws[i].phase, ws[j].v))
  }

  /** The workers of a stuck run: one for every vertex, each blocked, waiting to report, or finished. */
  ghost predicate AtRest(c: Config, ws: seq<Worker>) {
    && WorkersOK(c, ws) && OnePerVertex(c.vs, ws) && NoHandoff(ws) && HeldIffSent(c, ws)
    && forall i :: 0 <= i < |ws| ==> Blocked(ws[i]) || ws[i].phase.Report? || ws[i].phase.Finished?
  }

  lemma NotEnabled(c: Config, s: State, a: Action)
    requires Stuck(c, s) && !a.Cancel?
    ensures !Enabled(c, s, a)
  {}

  /** What a stuck state says of one worker's phase. */
  lemma StuckPhase(c: Config, s: State, i: nat)
    requires Stuck(c, s) && i < |s.workers|
    ensures var w := s.workers[i];
            && !w.phase.Collect? && !w.phase.Running? && !w.phase.Emit?
            && (w.phase.CloseDep? ==> Edge(w.v, w.phase.to) in s.closed)
            && (w.phase.CloseDone? ==> w.v in s.doneClosed)
            && (w.phase.Report? && s.main.Listen? && s.main.v == w.v ==> w.v in s.doneClosed)
  {
    var p := s.workers[i].phase;
    NotEnabled(c, s, RunFn(i));
    NotEnabled(c, s, EndFn(i, true));
    NotEnabled(c, s, SentAll(i));
    NotEnabled(c, s, CloseCh(i));
    NotEnabled(c, s, CloseMain(i));
    NotEnabled(c, s, SendMain(i));
    if p.Collect? && p.todo != {} {
      var dep :| dep in p.todo;
      NotEnabled(c, s, Choose(i, dep));
    }
    if p.Emit? && p.todo != {} {
      var to :| to in p.todo;
      NotEnabled(c, s, ChooseTo(i, to));
    }
  }

  lemma StuckSend(c: Config, s: State, i: nat, j: nat)
    requires Stuck(c, s)
    ensures !CanSend(s, i, j)
  {
    NotEnabled(c, s, Send(i, j));
  }

  lemma StuckMain(c: Config, s: State)
    requires Stuck(c, s)
    ensures !s.main.Idle? && !s.main.Pick?
  {
    if s.main.Idle? {
      var kids := SomeList(Downs(c.es, c.from));
      NotEnabled(c, s, Begin(kids));
    }
    NotEnabled(c, s, MainAll);
    if s.main.Pick? && s.main.todo != {} {
      var v :| v in s.main.todo;
      NotEnabled(c, s, MainChoose(v));
    }
  }

  lemma StuckHasNoToken(c: Config, s: State)
    requires c.atomic && Atomic(c, s) && Stuck(c, s)
    ensures s.tokens == []
  {
    if s.tokens != [] {
      var kids := SomeList(Downs(c.es, s.tokens[0].v));
      NotEnabled(c, s, Look(0, kids));
      NotEnabled(c, s, Visit(0, kids));
    }
  }

  lemma {:induction false} VisitedDownTo(c: Config, s: State, a: Vertex, p: seq<Vertex>, b: Vertex)
    requires Covered(c, s.visited, []) && a in s.visited && Walk(c.es, a, p, b)
    ensures b in s.visited
    decreases |p|
  {
    if p != [] {
      DepsDowns(c.es, a, p[0]);
      VisitedDownTo(c, s, p[0], p[1..], b);
    }
  }

  lemma StuckVisitedAll(c: Config, s: State)
    requires WellFormed(c) && c.atomic && Rooted(c.vs, c.es, c.from)
    requires Inv(c, s) && Atomic(c, s) && Stuck(c, s)
    ensures s.visited == c.vs
  {
    StuckHasNoToken(c, s);
    StuckMain(c, s);
    forall v | v in c.vs
      ensures v in s.visited
    {
      var p :| Walk(c.es, c.from, p, v);
      VisitedDownTo(c, s, c.from, p, v);
    }
  }

  lemma StuckWorker(c: Config, s: State, i: nat)
    requires OwnerOK(s.owner, s.workers) && ClosedOK(c, s.owner, s.workers, s.closed, s.doneClosed)
    requires AllReceived(c, s.owner, s.workers) && Stuck(c, s) && i < |s.workers|
    ensures Blocked(s.workers[i]) || s.workers[i].phase.Report? || s.workers[i].phase.Finished?
  {
    var w := s.workers[i];
    StuckPhase(c, s, i);
    assert Ran(w.phase) ==> PhaseOf(s.owner, s.workers, w.v) == w.phase;
    assert w.phase.CloseDep? ==> !Closed(w.phase, w.phase.to);
  }

  lemma StuckNoHandoff(c: Config, s: State)
    requires OwnerOK(s.owner, s.workers) && ClosedOK(c, s.owner, s.workers, s.closed, s.doneClosed) && Stuck(c, s)
    ensures NoHandoff(s.workers)
  {
    forall i: nat, j: nat | i < |s.workers| && j < |s.workers| && s.workers[i].phase.Offer? && s.workers[j].phase.Await?
      ensures !(s.workers[i].phase.to == s.workers[j].v && s.workers[j].phase.dep == s.workers[i].v)
    {
      assert PhaseOf(s.owner, s.workers, s.workers[i].v) == s.workers[i].phase;
      assert !Closed(s.workers[i].phase, s.workers[i].phase.to);
      StuckSend(c, s, i, j);
    }
  }

  lemma SentIsHeld(c: Config, s: State)
    requires Inv(c, s) && Atomic(c, s)
    ensures HeldIffSent(c, s.workers)
  {
    hide OwnerOK, OnePerVertex, GotWasSent, AllReceived, HeldIffSent;
    HeldFrom(c, s);
  }

  lemma HeldFrom(c: Config, s: State)
    requires OwnerOK(s.owner, s.workers) && OnePerVertex(s.visited, s.workers)
    requires GotWasSent(c, s.owner, s.workers) && AllReceived(c, s.owner, s.workers)
    ensures HeldIffSent(c, s.workers)
  {
    hide OwnerOK, OnePerVertex, PhaseOf;
    forall i, j | 0 <= i < |s.workers| && 0 <= j < |s.workers| && s.workers[i].v in Deps(c.es, s.workers[j].v)
      ensures s.workers[i].v in Got(c, s.workers[j]) <==> Sent(s.workers[i].phase, s.workers[j].v)
    {
      PhaseIsOwn(s, i);
      assert Sent(PhaseOf(s.owner, s.workers, s.workers[i].v), s.workers[j].v) <==>
        Sent(s.workers[i].phase, s.workers[j].v);
    }
  }

  lemma PhaseIsOwn(s: State, i: nat)
    requires OwnerOK(s.owner, s.workers) && OnePerVertex(s.visited, s.workers) && i < |s.workers|
    ensures PhaseOf(s.owner, s.workers, s.workers[i].v) ==
            if Ran(s.workers[i].phase) then s.workers[i].phase else GaveUp
  {}

  lemma StuckIsAtRest(c: Config, s: State)
    requires WellFormed(c) && c.atomic && Rooted(c.vs, c.es, c.from)
    requires Inv(c, s) && Atomic(c, s) && Stuck(c, s)
    ensures AtRest(c, s.workers)
  {
    StuckVisitedAll(c, s);
    StuckNoHandoff(c, s);
    SentIsHeld(c, s);
    forall i | 0 <= i < |s.workers|
      ensures Blocked(s.workers[i]) || s.workers[i].phase.Report? || s.workers[i].phase.Finished?
    {
      StuckWorker(c, s, i);
    }
  }

  // ----- rings of stuck senders -----

  lemma WorkerOf(c: Config, ws: seq<Worker>, v: Vertex) returns (i: nat)
    requires AtRest(c, ws) && v in c.vs
    ensures i < |ws| && ws[i].v == v
  {
    i :| 0 <= i < |ws| && ws[i].v == v;
  }

  /** A vertex whose value is awaited is blocked too; if it offers a value, then to another vertex. */
  lemma AwaitedIsBlocked(c: Config, ws: seq<Worker>, i: nat) returns (j: nat)
    requires WellFormed(c) && AtRest(c, ws) && i < |ws| && ws[i].phase.Await?
    ensures j < |ws| && ws[j].v == ws[i].phase.dep && Blocked(ws[j])
    ensures ws[j].phase.Offer? ==> ws[j].phase.to != ws[i].v
    ensures Edge(ws[j].v, ws[i].v) in c.es
  {
    assert WorkerOK(c, ws[i]);
    DepsDowns(c.es, ws[i].phase.dep, ws[i].v);
    j := WorkerOf(c, ws, ws[i].phase.dep);
    assert !Sent(ws[j].phase, ws[i].v);
  }

  /** A vertex to which a value is offered waits for another one. */
  lemma OfferedIsWaiting(c: Config, ws: seq<Worker>, i: nat) returns (j: nat)
    requires WellFormed(c) && AtRest(c, ws) && i < |ws| && ws[i].phase.Offer?
    ensures j < |ws| && ws[j].v == ws[i].phase.to
    ensures ws[j].phase.Await? && ws[j].phase.dep != ws[i].v
    ensures Edge(ws[i].v, ws[j].v) in c.es
  {
    assert WorkerOK(c, ws[i]);
    DepsDowns(c.es, ws[i].v, ws[i].phase.to);
    j := WorkerOf(c, ws, ws[i].phase.to);
    assert ws[i].v !in Got(c, ws[j]);
  }

  /** Worker x waits, directly or through the waiting workers of chain, for worker t. */
  ghost predicate Waits(ws: seq<Worker>, x: nat, chain: seq<nat>, t: nat)
    decreases |chain|
  {
    && x < |ws| && t < |ws| && ws[x].phase.Await?
    && if chain == [] then ws[x].phase.dep == ws[t].v
       else chain[0] < |ws| && ws[x].phase.dep == ws[chain[0]].v && Waits(ws, chain[0], chain[1..], t)
  }

  /** Worker i is stuck sending to a worker that waits, directly or indirectly, for worker t, which is
      itself stuck sending. */
  ghost predicate Behind(ws: seq<Worker>, i: nat, t: nat) {
    && i < |ws| && t < |ws| && ws[i].phase.Offer? && ws[t].phase.Offer?
    && exists j: nat, chain: seq<nat> :: Waits(ws, j, chain, t) && ws[j].v == ws[i].phase.to
  }

  ghost predicate FanOut(es: Edges, v: Vertex) {
    exists a, b :: a != b && Edge(v, a) in es && Edge(v, b) in es
  }

  ghost predicate FanIn(es: Edges, v: Vertex) {
    exists a, b :: a != b && Edge(a, v) in es && Edge(b, v) in es
  }

  /** Follow the awaited vertices upwards: the chain ends at a sender. */
  lemma {:induction false} FirstSender(c: Config, ws: seq<Worker>, x: nat) returns (chain: seq<nat>, t: nat)
    requires WellFormed(c) && Acyclic(c.es) && AtRest(c, ws) && x < |ws| && ws[x].phase.Await?
    ensures Waits(ws, x, chain, t) && ws[t].phase.Offer?
    ensures Reaches(c.es, ws[t].v, ws[x].phase.dep)
    ensures FanOut(c.es, ws[t].v)
    decreases Ancestry(c.es, ws[x].v)
  {
    var j := AwaitedIsBlocked(c, ws, x);
    if ws[j].phase.Offer? {
      chain, t := [], j;
      ReachesSelf(c.es, ws[j].v);
      var k := OfferedIsWaiting(c, ws, j);
      assert ws[k].v != ws[x].v && Edge(ws[j].v, ws[k].v) in c.es;
    } else {
      ReachShrinks(c.es, ws[j].v, ws[x].v);
      var rest;
      rest, t := FirstSender(c, ws, j);
      chain := [j] + rest;
      assert chain[1..] == rest;
      var k := AwaitedIsBlocked(c, ws, j);
      ReachesEdge(c.es, ws[t].v, ws[k].v, ws[j].v);
    }
  }

  /** Behind every stuck sender there is another one; that it is not the same is where the graph
      must have no redundant edge. */
  lemma NextSender(c: Config, ws: seq<Worker>, i: nat) returns (t: nat)
    requires WellFormed(c) && Acyclic(c.es) && Irredundant(c.es) && AtRest(c, ws)
    requires i < |ws| && ws[i].phase.Offer?
    ensures Behind(ws, i, t) && t != i && FanOut(c.es, ws[t].v) && FanIn(c.es, ws[i].phase.to)
  {
    var j := OfferedIsWaiting(c, ws, i);
    var chain;
    chain, t := FirstSender(c, ws, j);
    var k := AwaitedIsBlocked(c, ws, j);
    assert Edge(ws[i].v, ws[j].v) in c.es && Edge(ws[k].v, ws[j].v) in c.es && ws[k].v != ws[i].v;
    RedundantByParent(c.es, ws[i].v, ws[j].v);
  }

  lemma {:induction false} WaitsUnique(vs: set<Vertex>, ws: seq<Worker>, x: nat, p: seq<nat>, t: nat, y: nat,
                                       q: seq<nat>, r: nat)
    requires OnePerVertex(vs, ws) && x < |ws| && y < |ws| && ws[x].v == ws[y].v
    requires Waits(ws, x, p, t) && Waits(ws, y, q, r) && ws[t].phase.Offer? && ws[r].phase.Offer?
    ensures t == r
    decreases |p|
  {
    assert x == y;
    if p != [] && q != [] {
      WaitsUnique(vs, ws, p[0], p[1..], t, q[0], q[1..], r);
    }
  }

  /** Which sender one is behind depends only on the vertex one sends to. */
  lemma SameTarget(c: Config, ws: seq<Worker>, i: nat, t: nat, j: nat, r: nat)
    requires AtRest(c, ws) && Behind(ws, i, t) && Behind(ws, j, r) && ws[i].phase.to == ws[j].phase.to
    ensures t == r
  {
    var x: nat, p: seq<nat> :| Waits(ws, x, p, t) && ws[x].v == ws[i].phase.to;
    var y: nat, q: seq<nat> :| Waits(ws, y, q, r) && ws[y].v == ws[j].phase.to;
    WaitsUnique(c.vs, ws, x, p, t, y, q, r);
  }

  lemma BehindFans(c: Config, ws: seq<Worker>, i: nat, t: nat)
    requires WellFormed(c) && Acyclic(c.es) && Irredundant(c.es) && AtRest(c, ws) && Behind(ws, i, t)
    ensures FanOut(c.es, ws[t].v) && FanIn(c.es, ws[i].phase.to)
  {
    var r := NextSender(c, ws, i);
    SameTarget(c, ws, i, t, i, r);
  }

  ghost predicate Row(ws: seq<Worker>, row: seq<nat>) {
    && (forall i, j :: 0 <= i < j < |row| ==> row[i] != row[j])
    && (forall i :: 0 <= i < |row| ==> row[i] < |ws| && ws[row[i]].phase.Offer?)
    && (forall i :: 1 <= i < |row| ==> Behind(ws, row[i - 1], row[i]))
  }

  /** Distinct workers, each stuck sending behind the next, and the last behind the first. */
  ghost predicate SenderRing(ws: seq<Worker>, ring: seq<nat>) {
    |ring| >= 2 && Row(ws, ring) && Behind(ws, ring[|ring| - 1], ring[0])
  }

  lemma RowSuffix(ws: seq<Worker>, row: seq<nat>, k: nat)
    requires Row(ws, row) && k <= |row|
    ensures Row(ws, row[k..])
  {
    var ring := row[k..];
    forall i | 1 <= i < |ring|
      ensures Behind(ws, ring[i - 1], ring[i])
    {
      assert Behind(ws, row[k + i - 1], row[k + i]);
    }
  }

  lemma RowSnoc(ws: seq<Worker>, row: seq<nat>, t: nat)
    requires Row(ws, row) && row != [] && t !in row && Behind(ws, row[|row| - 1], t)
    ensures Row(ws, row + [t])
  {
    var longer := row + [t];
    forall i | 1 <= i < |longer|
      ensures Behind(ws, longer[i - 1], longer[i])
    {
      if i < |row| { assert Behind(ws, row[i - 1], row[i]); }
    }
  }

  /** Extend a row of senders until it bites its own tail. */
  lemma {:induction false} FindRing(c: Config, ws: seq<Worker>, row: seq<nat>) returns (ring: seq<nat>)
    requires WellFormed(c) && Acyclic(c.es) && Irredundant(c.es) && AtRest(c, ws)
    requires row != [] && Row(ws, row)
    ensures SenderRing(ws, ring)
    decreases |ws| - |row|
  {
    hide AtRest, Acyclic, Irredundant, WellFormed, Behind;
    var t := NextSender(c, ws, row[|row| - 1]);
    if t in row {
      var k :| 0 <= k < |row| && row[k] == t;
      RowSuffix(ws, row, k);
      ring := row[k..];
    } else {
      RowSnoc(ws, row, t);
      DistinctBelow(row + [t], |ws|);
      ring := FindRing(c, ws, row + [t]);
    }
  }

  /** Distinct numbers below n are at most n many. */
  lemma {:induction false} DistinctBelow(row: seq<nat>, n: nat)
    requires forall i, j :: 0 <= i < j < |row| ==> row[i] != row[j]
    requires forall i :: 0 <= i < |row| ==> row[i] < n
    ensures |row| <= n
    decreases n
  {
    assert row != [] ==> row[0] < n;
    if row != [] {
      if k :| 0 <= k < |row| && row[k] == n - 1 {
        DistinctBelow(row[..k] + row[k + 1..], n - 1);
      } else {
        DistinctBelow(row, n - 1);
      }
    }
  }

  lemma MainWaitsForBlocked(c: Config, s: State) returns (i: nat)
    requires Stuck(c, s) && AtRest(c, s.workers) && OwnerOK(s.owner, s.workers)
    requires ClosedOK(c, s.owner, s.workers, s.closed, s.doneClosed)
    requires MainOK(c, s.owner, s.workers, s.main, s.cancelled) && !s.main.Returned?
    ensures i < |s.workers| && Blocked(s.workers[i])
  {
    StuckMain(c, s);
    var v := s.main.v;
    assert v in s.main.todo + {v};
    i := WorkerOf(c, s.workers, v);
    assert Ran(s.workers[i].phase) ==> PhaseOf(s.owner, s.workers, v) == s.workers[i].phase;
    StuckPhase(c, s, i);
  }

  lemma RingFrom(c: Config, ws: seq<Worker>, i: nat) returns (ring: seq<nat>)
    requires WellFormed(c) && Acyclic(c.es) && Irredundant(c.es)
    requires AtRest(c, ws) && i < |ws| && Blocked(ws[i])
    ensures SenderRing(ws, ring)
  {
    hide AtRest, Acyclic, Irredundant, WellFormed, Waits;
    if ws[i].phase.Offer? {
      ring := FindRing(c, ws, [i]);
    } else {
      var chain, t := FirstSender(c, ws, i);
      ring := FindRing(c, ws, [t]);
    }
  }

  /** A reachable stuck state in which the main walk has not returned holds a ring of at least two
      stuck senders. */
  lemma StuckHasRing(c: Config, s: State) returns (ring: seq<nat>)
    requires WellFormed(c) && c.atomic && Acyclic(c.es) && Irredundant(c.es) && Rooted(c.vs, c.es, c.from)
    requires Reachable(c, s) && Stuck(c, s) && !s.main.Returned?
    ensures SenderRing(s.workers, ring) && AtRest(c, s.workers)
  {
    hide Stuck, AtRest, Acyclic, Irredundant, WellFormed, Atomic;
    var acts :| Steps(c, Init, acts, s);
    AtomicSteps(c, Init, acts, s);
    StuckIsAtRest(c, s);
    var i := MainWaitsForBlocked(c, s);
    ring := RingFrom(c, s.workers, i);
  }

  /** No deadlock where at most one vertex has two dependents. */
  lemma NoDeadlockFanOut(c: Config, s: State)
    requires WellFormed(c) && c.atomic && Acyclic(c.es) && Irredundant(c.es) && Rooted(c.vs, c.es, c.from)
    requires forall u, v :: FanOut(c.es, u) && FanOut(c.es, v) ==> u == v
    requires Reachable(c, s) && Stuck(c, s)
    ensures s.main.Returned?
  {
    if !s.main.Returned? {
      var ring := StuckHasRing(c, s);
      BehindFans(c, s.workers, ring[|ring| - 1], ring[0]);
      BehindFans(c, s.workers, ring[0], ring[1]);
    }
  }

  /** No deadlock where at most one vertex has two dependencies. */
  lemma NoDeadlockFanIn(c: Config, s: State)
    requires WellFormed(c) && c.atomic && Acyclic(c.es) && Irredundant(c.es) && Rooted(c.vs, c.es, c.from)
    requires forall u, v :: FanIn(c.es, u) && FanIn(c.es, v) ==> u == v
    requires Reachable(c, s) && Stuck(c, s)
    ensures s.main.Returned?
  {
    if !s.main.Returned? {
      var ring := StuckHasRing(c, s);
      var next := ring[if 2 < |ring| then 2 else 0];
      assert Behind(s.workers, ring[0], ring[1]) && Behind(s.workers, ring[1], next);
      BehindFans(c, s.workers, ring[0], ring[1]);
      BehindFans(c, s.workers, ring[1], next);
      SameTarget(c, s.workers, ring[0], ring[1], ring[1], next);
    }
  }
}
