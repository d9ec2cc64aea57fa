/** Where the executor can deadlock, with an atomic visited check: exactly where the graph holds a tangle
    of vertices that offer to, and vertices that wait for, one another. */
module ExecutorDeadlocks {
  import opened Graphs
  import opened Executor
  import opened ExecutorSafety
  import opened ExecutorProgress
  import opened ExecutorRuns
  import opened ExecutorSchedules

  /** Some run ends with the main walk waiting and nothing left to happen. */
  ghost predicate CanDeadlock(c: Config) {
    exists s :: Reachable(c, s) && Stuck(c, s) && !s.main.Returned?
  }

  type Choice = map<Vertex, Vertex>

  /** The vertices of to each offer to a dependent, the vertices of dep each wait for a dependency, all
      of them to or for one another, and never the two sides of one edge. No waiting vertex is an
      ancestor of an offering one. */
  ghost predicate Tangle(es: Edges, to: Choice, dep: Choice) {
    && (exists u :: u in to) && to.Keys !! dep.Keys
    && (forall u :: u in to ==> Edge(u, to[u]) in es && to[u] in dep)
    && (forall w :: w in dep ==> Edge(dep[w], w) in es && (dep[w] in to || dep[w] in dep))
    && (forall w :: w in dep && dep[w] in to ==> to[dep[w]] != w)
    && (forall u, w :: u in to && w in dep ==> !Reaches(es, w, u))
  }

  // ----- a deadlock is a tangle -----

  /** The phase of the worker of v, GaveUp if there is none. */
  ghost function At(ws: seq<Worker>, v: Vertex): Phase {
    if i: nat :| i < |ws| && ws[i].v == v then ws[i].phase else GaveUp
  }

  lemma AtOwn(vs: set<Vertex>, ws: seq<Worker>, i: nat)
    requires OnePerVertex(vs, ws) && i < |ws|
    ensures At(ws, ws[i].v) == ws[i].phase && ws[i].v in vs
  {}

  ghost function Offers(vs: set<Vertex>, ws: seq<Worker>): Choice {
    map v | v in vs && At(ws, v).Offer? :: At(ws, v).to
  }

  ghost function Awaits(vs: set<Vertex>, ws: seq<Worker>): Choice {
    map v | v in vs && At(ws, v).Await? :: At(ws, v).dep
  }

  lemma OffersTangle(c: Config, ws: seq<Worker>, u: Vertex)
    requires WellFormed(c) && AtRest(c, ws) && u in Offers(c.vs, ws)
    ensures var w := Offers(c.vs, ws)[u]; Edge(u, w) in c.es && w in Awaits(c.vs, ws)
  {
    var i := WorkerOf(c, ws, u);
    AtOwn(c.vs, ws, i);
    var j := OfferedIsWaiting(c, ws, i);
    AtOwn(c.vs, ws, j);
  }

  lemma AwaitsTangle(c: Config, ws: seq<Worker>, w: Vertex)
    requires WellFormed(c) && AtRest(c, ws) && w in Awaits(c.vs, ws)
    ensures var y := Awaits(c.vs, ws)[w];
            && Edge(y, w) in c.es && (y in Offers(c.vs, ws) || y in Awaits(c.vs, ws))
            && (y in Offers(c.vs, ws) ==> Offers(c.vs, ws)[y] != w)
  {
    var i := WorkerOf(c, ws, w);
    AtOwn(c.vs, ws, i);
    var j := AwaitedIsBlocked(c, ws, i);
    AtOwn(c.vs, ws, j);
  }

  /** What offers has begun, and then its ancestors have ended; what awaits has not begun. */
  lemma NoWaiterAbove(c: Config, s: State, i: nat, j: nat)
    requires Inv(c, s) && OnePerVertex(s.visited, s.workers) && i < |s.workers| && j < |s.workers|
    requires s.workers[i].phase.Offer? && s.workers[j].phase.Await?
    ensures !Reaches(c.es, s.workers[j].v, s.workers[i].v)
  {
    var u, w := s.workers[i].v, s.workers[j].v;
    PhaseIsOwn(s, i);
    PhaseIsOwn(s, j);
    assert !HasResult(PhaseOf(s.owner, s.workers, w));
    assert Started(u) in s.log;
    var k :| 0 <= k < |s.log| && s.log[k] == Started(u);
    if p :| Walk(c.es, w, p, u) {
      AncestorsEnded(c, s.log, w, p, u, k);
      assert Ended(w, true) in s.log || Ended(w, false) in s.log;
    }
  }

  lemma StuckIsTangle(c: Config, s: State)
    requires WellFormed(c) && c.atomic && Acyclic(c.es) && Rooted(c.vs, c.es, c.from)
    requires Reachable(c, s) && Stuck(c, s) && !s.main.Returned?
    ensures Tangle(c.es, Offers(c.vs, s.workers), Awaits(c.vs, s.workers))
  {
    hide Stuck, AtRest, Acyclic, WellFormed, Atomic, Rooted, Inv;
    var acts :| Steps(c, Init, acts, s);
    InitOK(c);
    AtomicSteps(c, Init, acts, s);
    StuckIsAtRest(c, s);
    var t := StuckSender(c, s);
    OnePerOf(c, s);
    OffersAreTangle(c, s, t);
  }

  lemma OffersAreTangle(c: Config, s: State, t: nat)
    requires WellFormed(c) && Inv(c, s) && AtRest(c, s.workers) && OnePerVertex(s.visited, s.workers)
    requires t < |s.workers| && s.workers[t].phase.Offer? && s.workers[t].v in c.vs
    ensures Tangle(c.es, Offers(c.vs, s.workers), Awaits(c.vs, s.workers))
  {
    hide AtRest, WellFormed, Inv, OnePerVertex, At;
    var to, dep := Offers(c.vs, s.workers), Awaits(c.vs, s.workers);
    AtOwn(s.visited, s.workers, t);
    assert s.workers[t].v in to;
    forall u | u in to
      ensures Edge(u, to[u]) in c.es && to[u] in dep
    {
      OffersTangle(c, s.workers, u);
    }
    forall w | w in dep
      ensures Edge(dep[w], w) in c.es && (dep[w] in to || dep[w] in dep) && (dep[w] in to ==> to[dep[w]] != w)
    {
      AwaitsTangle(c, s.workers, w);
    }
    forall u, w | u in to && w in dep
      ensures !Reaches(c.es, w, u)
    {
      var i := WorkerOf(c, s.workers, u);
      var j := WorkerOf(c, s.workers, w);
      AtOwn(s.visited, s.workers, i);
      AtOwn(s.visited, s.workers, j);
      NoWaiterAbove(c, s, i, j);
    }
  }

  lemma OnePerOf(c: Config, s: State)
    requires Atomic(c, s) && AtRest(c, s.workers)
    ensures OnePerVertex(s.visited, s.workers) && forall i :: 0 <= i < |s.workers| ==> s.workers[i].v in c.vs
  {}

  lemma StuckSender(c: Config, s: State) returns (t: nat)
    requires WellFormed(c) && Acyclic(c.es) && Inv(c, s) && Stuck(c, s) && AtRest(c, s.workers) && !s.main.Returned?
    ensures t < |s.workers| && s.workers[t].phase.Offer?
  {
    hide AtRest, Acyclic, WellFormed, Stuck;
    t := MainWaitsForBlocked(c, s);
    if s.workers[t].phase.Await? {
      var chain;
      chain, t := FirstSender(c, s.workers, t);
    }
  }

  // ----- a tangle can become a deadlock -----

  /** The ancestors of the offering vertices, with these. */
  ghost function Above(c: Config, to: Choice): set<Vertex> {
    set v, u | u in to && v in Ancestry(c.es, u) :: v
  }

  lemma AboveClosed(c: Config, to: Choice, dep: Choice)
    requires WellFormed(c) && Acyclic(c.es) && Tangle(c.es, to, dep)
    ensures AncestorClosed(c, Above(c, to)) && to.Keys <= Above(c, to)
  {
    hide Acyclic, Ancestry;
    forall u | u in to
      ensures AncestorClosed(c, Ancestry(c.es, u)) && u in Ancestry(c.es, u)
    {
      assert Edge(u, to[u]).from in c.vs;
      AncestryClosed(c, u);
    }
  }

  lemma WaitersNotAbove(c: Config, to: Choice, dep: Choice)
    requires WellFormed(c) && Tangle(c.es, to, dep)
    ensures dep.Keys !! Above(c, to) && to.Keys <= c.vs && dep.Keys <= c.vs && to.Keys !! dep.Keys
  {
    hide Reaches;
    forall u | u in to
      ensures u in c.vs
    {
      assert Edge(u, to[u]).from in c.vs;
    }
    forall w | w in dep
      ensures w in c.vs && w !in Above(c, to)
    {
      assert Edge(dep[w], w).to in c.vs;
      forall u | u in to
        ensures w !in Ancestry(c.es, u)
      {
        ReachMember(c.es, u, w);
      }
    }
  }

  /** The phase of v once those of done have made their offer or begun their wait. */
  ghost function PhasePlaced(c: Config, to: Choice, dep: Choice, done: set<Vertex>, v: Vertex): Phase {
    var up := Above(c, to);
    if v in done && v in to then Offer(true, Downs(c.es, v) - up - {to[v]}, to[v])
    else if v in done && v in dep then Await(Deps(c.es, v) - {dep[v]}, dep[v])
    else PhaseWithin(c, up, up, v)
  }

  ghost predicate Placed(c: Config, to: Choice, dep: Choice, done: set<Vertex>, s: State) {
    && OnePerVertex(c.vs, s.workers) && s.visited == c.vs && Calm(s)
    && forall i :: 0 <= i < |s.workers| ==> s.workers[i].phase == PhasePlaced(c, to, dep, done, s.workers[i].v)
  }

  /** After a step of the worker of v alone. */
  lemma PlacedMore(c: Config, to: Choice, dep: Choice, done: set<Vertex>, s: State, t: State, i: nat)
    requires Placed(c, to, dep, done, s) && i < |s.workers| && t == s.(workers := t.workers)
    requires |t.workers| == |s.workers| && t.workers[i].v == s.workers[i].v
    requires t.workers[i].phase == PhasePlaced(c, to, dep, done + {s.workers[i].v}, s.workers[i].v)
    requires forall k :: 0 <= k < |s.workers| && k != i ==> t.workers[k] == s.workers[k]
    ensures Placed(c, to, dep, done + {s.workers[i].v}, t)
  {
    hide Above, PhaseWithin;
    forall k | 0 <= k < |t.workers|
      ensures t.workers[k].v == s.workers[k].v
      ensures k != i ==> t.workers[k].v != s.workers[i].v
    {}
    OnePerUpdate(c.vs, s.workers, t.workers);
  }

  lemma PlaceOffer(c: Config, acts: seq<Action>, s: State, to: Choice, dep: Choice, done: set<Vertex>, v: Vertex)
    returns (more: seq<Action>, t: State)
    requires Steps(c, Init, acts, s) && Placed(c, to, dep, done, s) && v in to && v !in done && v in c.vs
    requires v in Above(c, to) && to[v] !in Above(c, to) && Edge(v, to[v]) in c.es
    ensures Steps(c, Init, more, t) && Placed(c, to, dep, done + {v}, t)
  {
    hide Steps, Above;
    var i := FindWorker(c.vs, s.workers, v);
    DepsDowns(c.es, v, to[v]);
    assert s.workers[i].phase == Emit(true, Downs(c.es, v) - Above(c, to));
    more, t := ThenOffer(c, acts, s, i, to[v]);
    PlacedMore(c, to, dep, done, s, t, i);
  }

  lemma PlaceAwait(c: Config, acts: seq<Action>, s: State, to: Choice, dep: Choice, done: set<Vertex>, v: Vertex)
    returns (more: seq<Action>, t: State)
    requires Steps(c, Init, acts, s) && Placed(c, to, dep, done, s) && v in dep && v !in to && v !in done && v in c.vs
    requires v !in Above(c, to) && Edge(dep[v], v) in c.es
    ensures Steps(c, Init, more, t) && Placed(c, to, dep, done + {v}, t)
  {
    hide Steps, Above;
    var i := FindWorker(c.vs, s.workers, v);
    DepsDowns(c.es, dep[v], v);
    assert s.workers[i].phase == Collect(Deps(c.es, v));
    more, t := ThenAwait(c, acts, s, i, dep[v]);
    PlacedMore(c, to, dep, done, s, t, i);
  }

  lemma {:induction false} PlaceAll(c: Config, acts: seq<Action>, s: State, to: Choice, dep: Choice, done: set<Vertex>)
    returns (more: seq<Action>, t: State)
    requires WellFormed(c) && Acyclic(c.es) && Tangle(c.es, to, dep)
    requires Steps(c, Init, acts, s) && Placed(c, to, dep, done, s) && done <= to.Keys + dep.Keys
    ensures Steps(c, Init, more, t) && Placed(c, to, dep, to.Keys + dep.Keys, t)
    decreases dep.Keys + to.Keys - done
  {
    hide Steps, Placed, WellFormed, Acyclic, Above, Reaches;
    AboveClosed(c, to, dep);
    WaitersNotAbove(c, to, dep);
    if to.Keys + dep.Keys <= done {
      assert done == to.Keys + dep.Keys;
      more, t := acts, s;
    } else {
      var v :| v in to.Keys + dep.Keys && v !in done;
      var some, m;
      if v in to {
        some, m := PlaceOffer(c, acts, s, to, dep, done, v);
      } else {
        some, m := PlaceAwait(c, acts, s, to, dep, done, v);
      }
      more, t := PlaceAll(c, some, m, to, dep, done + {v});
    }
  }

  /** From the start: run what is above the offering vertices, then place all of the tangle. */
  lemma ReachTangle(c: Config, to: Choice, dep: Choice) returns (acts: seq<Action>, t: State)
    requires WellFormed(c) && c.atomic && Acyclic(c.es) && Rooted(c.vs, c.es, c.from) && Tangle(c.es, to, dep)
    ensures Steps(c, Init, acts, t) && Placed(c, to, dep, to.Keys + dep.Keys, t)
  {
    hide Steps, Placed, Tangle, WellFormed, Acyclic, Rooted, Within;
    AboveClosed(c, to, dep);
    var up := Above(c, to);
    var some, s := ReachWithin(c, up, up);
    WithinIsPlaced(c, some, s, to, dep);
    acts, t := PlaceAll(c, some, s, to, dep, {});
  }

  lemma WithinIsPlaced(c: Config, acts: seq<Action>, s: State, to: Choice, dep: Choice)
    requires WellFormed(c) && c.atomic && Acyclic(c.es) && Steps(c, Init, acts, s)
    requires Within(c, Above(c, to), Above(c, to), s)
    ensures Placed(c, to, dep, {}, s)
  {
    hide Inv, Acyclic, WellFormed, Steps;
    InitOK(c);
    AtomicSteps(c, Init, acts, s);
    assert OnePerVertex(c.vs, s.workers) && OnePerVertex(s.visited, s.workers);
    SameVertices(c.vs, s.visited, s.workers);
  }

  lemma SameVertices(vs: set<Vertex>, us: set<Vertex>, ws: seq<Worker>)
    requires OnePerVertex(vs, ws) && OnePerVertex(us, ws)
    ensures vs == us
  {}

  // ----- a tangle stays -----

  ghost predicate Tied(ws: seq<Worker>, visited: set<Vertex>, to: Choice, dep: Choice) {
    && to.Keys + dep.Keys <= visited
    && forall i :: 0 <= i < |ws| ==>
         && (ws[i].v in to ==> ws[i].phase.Offer? && ws[i].phase.to == to[ws[i].v])
         && (ws[i].v in dep ==> ws[i].phase.Await? && ws[i].phase.dep == dep[ws[i].v])
  }

  /** Which workers an action moves: those that are blocked move by a handoff only. */
  lemma BlockedMovesBySend(c: Config, s: State, a: Action, k: nat)
    requires Inv(c, s) && Atomic(c, s) && Enabled(c, s, a) && k < |s.workers| && Blocked(s.workers[k])
    ensures k < |Next(c, s, a).workers|
    ensures Next(c, s, a).workers[k] == s.workers[k] || (a.Send? && (a.i == k || a.j == k))
  {
    if a.GiveUp? { NeverGivesUp(c, s, a.i); }
  }

  /** No handoff involves a vertex of the tangle. */
  lemma NoHandoffInTangle(c: Config, s: State, to: Choice, dep: Choice, i: nat, j: nat)
    requires Tangle(c.es, to, dep) && Tied(s.workers, s.visited, to, dep) && CanSend(s, i, j)
    ensures s.workers[i].v !in to && s.workers[i].v !in dep && s.workers[j].v !in to && s.workers[j].v !in dep
  {}

  /** Workers are never removed, and a new one is for a vertex that was not visited. */
  lemma NewIsUnvisited(c: Config, s: State, a: Action, k: nat)
    requires Enabled(c, s, a) && c.atomic && !s.main.Idle? && k < |Next(c, s, a).workers|
    requires forall m :: 0 <= m < |s.tokens| ==> s.tokens[m].Check?
    ensures k < |s.workers| ==> Next(c, s, a).workers[k].v == s.workers[k].v
    ensures k >= |s.workers| ==> Next(c, s, a).workers[k].v !in s.visited
    ensures s.visited <= Next(c, s, a).visited && !Next(c, s, a).main.Idle?
  {}

  lemma TangleStays(c: Config, s: State, a: Action, to: Choice, dep: Choice)
    requires Tangle(c.es, to, dep) && Inv(c, s) && Atomic(c, s) && c.atomic && !s.main.Idle?
    requires Enabled(c, s, a) && Tied(s.workers, s.visited, to, dep)
    ensures Tied(Next(c, s, a).workers, Next(c, s, a).visited, to, dep) && !Next(c, s, a).main.Idle?
  {
    hide Inv, Tangle, Enabled, Next;
    var t := Next(c, s, a);
    if a.Send? {
      SendEnabled(c, s, a.i, a.j);
      NoHandoffInTangle(c, s, to, dep, a.i, a.j);
    }
    NextVisits(c, s, a);
    forall k | 0 <= k < |t.workers|
      ensures t.workers[k].v in to ==> t.workers[k].phase.Offer? && t.workers[k].phase.to == to[t.workers[k].v]
      ensures t.workers[k].v in dep ==> t.workers[k].phase.Await? && t.workers[k].phase.dep == dep[t.workers[k].v]
    {
      NewIsUnvisited(c, s, a, k);
      if k < |s.workers| && (s.workers[k].v in to || s.workers[k].v in dep) {
        BlockedMovesBySend(c, s, a, k);
      }
    }
  }

  lemma SendEnabled(c: Config, s: State, i: nat, j: nat)
    requires Enabled(c, s, Send(i, j))
    ensures CanSend(s, i, j)
  {}

  lemma NextVisits(c: Config, s: State, a: Action)
    requires Enabled(c, s, a) && !s.main.Idle?
    ensures s.visited <= Next(c, s, a).visited && !Next(c, s, a).main.Idle?
  {}

  /** A calm run that holds a tangle can be driven to a stuck state in which the main walk still waits. */
  lemma {:induction false} TangleToEnd(c: Config, s: State, to: Choice, dep: Choice)
    returns (acts: seq<Action>, t: State)
    requires WellFormed(c) && Acyclic(c.es) && c.atomic && Tangle(c.es, to, dep) && to.Keys <= c.vs
    requires Inv(c, s) && Atomic(c, s) && Calm(s) && Tied(s.workers, s.visited, to, dep) && !s.main.Idle?
    ensures Steps(c, s, acts, t) && Stuck(c, t) && !t.main.Returned?
    decreases Measure(c, s)
  {
    hide Inv, Atomic, Calm, Tied, Tangle, Acyclic, WellFormed, Stuck, Enabled, Next;
    if Stuck(c, s) {
      TiedNotReturned(c, s, to, dep);
      acts, t := [], s;
    } else {
      var a := CalmAction(c, s);
      StepWeighs(c, s, a);
      InvStep(c, s, a);
      AtomicStep(c, s, a);
      TangleStays(c, s, a, to, dep);
      var rest;
      rest, t := TangleToEnd(c, Next(c, s, a), to, dep);
      acts := [a] + rest;
      assert acts[1..] == rest;
    }
  }

  lemma TiedNotReturned(c: Config, s: State, to: Choice, dep: Choice)
    requires Tangle(c.es, to, dep) && to.Keys <= c.vs && Tied(s.workers, s.visited, to, dep)
    requires Inv(c, s) && Atomic(c, s) && Calm(s)
    ensures !s.main.Returned?
  {
    hide TokensOK, BegunOK, WorkersOK, GotOnce, GotWasSent, ClosedOK, AllReceived, SentToVisited, Covered;
    hide MainOK, LogOK;
    var u :| u in to;
    var i := FindWorker(s.visited, s.workers, u);
    PhaseIsOwn(s, i);
    UnreportedWaits(c, s, u);
  }

  /** While the function of u has not been heard of and none has failed, the main walk waits. */
  lemma UnreportedWaits(c: Config, s: State, u: Vertex)
    requires Inv(c, s) && Calm(s) && u in c.vs && !Reported(PhaseOf(s.owner, s.workers, u))
    ensures !s.main.Returned?
  {
    hide TokensOK, BegunOK, WorkersOK, GotOnce, GotWasSent, ClosedOK, OwnerOK, PhaseOf;
    assert forall v :: Failed(s.owner, s.workers, v) ==> Ended(v, false) in s.log;
  }

  lemma PlacedIsTied(c: Config, to: Choice, dep: Choice, s: State)
    requires to.Keys !! dep.Keys && to.Keys <= c.vs && dep.Keys <= c.vs
    requires Placed(c, to, dep, to.Keys + dep.Keys, s)
    ensures Tied(s.workers, s.visited, to, dep) && Calm(s) && to.Keys <= s.visited
  {
    hide Above, PhaseWithin, Calm, OnePerVertex;
    forall i | 0 <= i < |s.workers|
      ensures s.workers[i].v in to ==> s.workers[i].phase.Offer? && s.workers[i].phase.to == to[s.workers[i].v]
      ensures s.workers[i].v in dep ==> s.workers[i].phase.Await? && s.workers[i].phase.dep == dep[s.workers[i].v]
    {
      assert s.workers[i].phase == PhasePlaced(c, to, dep, to.Keys + dep.Keys, s.workers[i].v);
    }
  }

  lemma TangleDeadlocks(c: Config, to: Choice, dep: Choice)
    requires WellFormed(c) && c.atomic && Acyclic(c.es) && Rooted(c.vs, c.es, c.from) && Tangle(c.es, to, dep)
    ensures CanDeadlock(c)
  {
    hide Inv, Atomic, Stuck, Acyclic, Rooted, Tangle, WellFormed, Above, Placed, Tied, Calm, Steps;
    var acts, s := ReachTangle(c, to, dep);
    WaitersNotAbove(c, to, dep);
    PlacedIsTied(c, to, dep, s);
    InitOK(c);
    AtomicSteps(c, Init, acts, s);
    NotIdle(c, s, to, dep);
    var more, t := TangleToEnd(c, s, to, dep);
    StepsConcat(c, Init, acts, s, more, t);
    assert Reachable(c, t);
  }

  lemma NotIdle(c: Config, s: State, to: Choice, dep: Choice)
    requires Inv(c, s) && to.Keys <= s.visited && Tangle(c.es, to, dep)
    ensures !s.main.Idle?
  {
    hide WorkersOK, GotOnce, OwnerOK, GotWasSent, ClosedOK, MainOK, LogOK, TokensOK;
    var u :| u in to;
    assert u in s.visited;
  }

  /** The executor with an atomic visited check can deadlock if and only if the graph holds a tangle. */
  lemma DeadlockIff(c: Config)
    requires WellFormed(c) && c.atomic && Acyclic(c.es) && Rooted(c.vs, c.es, c.from)
    ensures CanDeadlock(c) <==> exists to, dep :: Tangle(c.es, to, dep)
  {
    hide Stuck, Tangle, Acyclic, Rooted, WellFormed, Reachable;
    if CanDeadlock(c) {
      var s :| Reachable(c, s) && Stuck(c, s) && !s.main.Returned?;
      StuckIsTangle(c, s);
    }
    if to, dep :| Tangle(c.es, to, dep) {
      TangleDeadlocks(c, to, dep);
    }
  }

  // ----- simple tangles -----

  ghost predicate Below(es: Edges, r: Vertex, w: Vertex) {
    exists q :: q != [] && Walk(es, r, q, w)
  }

  /** Every vertex of a walk from r waits for the one before it. */
  lemma {:induction false} WalkWaits(es: Edges, r: Vertex, p: seq<Vertex>, y: Vertex) returns (dep: Choice)
    requires Walk(es, r, p, y) && p != []
    ensures y in dep && forall w :: w in dep ==> Edge(dep[w], w) in es && (dep[w] == r || dep[w] in dep)
    ensures forall w :: w in dep ==> Below(es, r, w)
    decreases |p|
  {
    var x := WalkLast(es, r, p, y);
    var chain: Choice := map[];
    if p[..|p| - 1] != [] {
      chain := WalkWaits(es, r, p[..|p| - 1], x);
    }
    dep := chain[y := x];
    forall w | w in dep
      ensures Below(es, r, w)
    {
      if w == y { assert p != [] && Walk(es, r, p, w); }
    }
  }

  /** One redundant edge is enough: its source blocks on its target, which waits for something
      below the source. */
  lemma RedundantDeadlocks(c: Config, e: Edge)
    requires WellFormed(c) && c.atomic && Acyclic(c.es) && Rooted(c.vs, c.es, c.from)
    requires e in c.es && Redundant(c.es, e)
    ensures CanDeadlock(c)
  {
    var to, dep := RedundantTangle(c.es, e.from, e.to);
    hide Acyclic, Rooted, Tangle;
    TangleDeadlocks(c, to, dep);
  }

  lemma RedundantTangle(es: Edges, r: Vertex, a: Vertex) returns (to: map<Vertex, Vertex>, dep: map<Vertex, Vertex>)
    requires Acyclic(es) && Edge(r, a) in es && Redundant(es, Edge(r, a))
    ensures Tangle(es, to, dep)
  {
    RedundantByParent(es, r, a);
    var y :| y != r && Edge(y, a) in es && Reaches(es, r, y);
    var p :| Walk(es, r, p, y);
    var chain := WalkWaits(es, r, p, y);
    dep := chain[a := y];
    forall w | w in dep
      ensures w != r && !Reaches(es, w, r)
    {
      if w == a {
        NoWayBack(es, r, a);
      } else {
        var q :| q != [] && Walk(es, r, q, w);
        if Reaches(es, w, r) { AntiSymmetric(es, r, w); }
      }
    }
    to := map[r := a];
    assert r in to;
    hide Acyclic, Walk, Reaches;
  }

  /** Two vertices with two common dependents can deadlock, also where no edge is redundant. */
  lemma CrossDeadlocks(c: Config, u: Vertex, p: Vertex, v: Vertex, w: Vertex)
    requires WellFormed(c) && c.atomic && Acyclic(c.es) && Rooted(c.vs, c.es, c.from)
    requires u != p && v != w
    requires Edge(u, v) in c.es && Edge(u, w) in c.es && Edge(p, v) in c.es && Edge(p, w) in c.es
    ensures CanDeadlock(c)
  {
    NoWayBack(c.es, u, v);
    NoWayBack(c.es, u, w);
    NoWayBack(c.es, p, v);
    NoWayBack(c.es, p, w);
    var to, dep := map[u := v, p := w], map[v := p, w := u];
    assert u in to;
    assert Tangle(c.es, to, dep);
    TangleDeadlocks(c, to, dep);
  }

  /** With at most one fork, the executor is free of deadlock exactly on irredundant graphs: what the
      transitive reduction is for. */
  lemma DeadlockFreeIff(c: Config)
    requires WellFormed(c) && c.atomic && Acyclic(c.es) && Rooted(c.vs, c.es, c.from) && AtMostOneFork(c.es)
    ensures !CanDeadlock(c) <==> Irredundant(c.es)
  {
    if Irredundant(c.es) {
      forall s | Reachable(c, s) && Stuck(c, s)
        ensures s.main.Returned?
      {
        EndsReturned(c, s);
      }
    } else {
      var e :| e in c.es && Redundant(c.es, e);
      RedundantDeadlocks(c, e);
    }
  }
}
