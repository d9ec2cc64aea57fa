/** Runs of the executor built on purpose: they show that the guarantees of the other modules are
    exact, and where the executor does get stuck. */
module ExecutorSchedules {
  import opened Graphs
  import opened Executor
  import opened ExecutorSafety
  import opened ExecutorProgress
  import opened ExecutorRuns

  // ----- short sequences of actions -----

  /** Worker i, which has all its values, runs its function to a true end. */
  lemma RunIt(c: Config, s: State, i: nat) returns (t: State)
    requires i < |s.workers| && s.workers[i].phase == Collect({})
    ensures Steps(c, s, [RunFn(i), EndFn(i, true)], t)
    ensures var v := s.workers[i].v;
            && t.workers == s.workers[i := Worker(v, Emit(true, Downs(c.es, v)))]
            && t.log == s.log + [Started(v), Ended(v, true)]
            && t == s.(workers := t.workers, owner := t.owner, log := t.log)
  {
    var v := s.workers[i].v;
    var m := Next(c, s, RunFn(i));
    t := Next(c, m, EndFn(i, true));
    assert Steps(c, m, [EndFn(i, true)], t) by {
      assert Steps(c, t, [EndFn(i, true)][1..], t);
    }
    assert [RunFn(i), EndFn(i, true)][1..] == [EndFn(i, true)];
    assert t.log == s.log + [Started(v), Ended(v, true)];
    assert t.workers == s.workers[i := Worker(v, Emit(true, Downs(c.es, v)))];
  }

  ghost predicate CanHand(s: State, i: nat, j: nat) {
    && i < |s.workers| && j < |s.workers| && i != j
    && s.workers[i].phase.Emit? && s.workers[j].v in s.workers[i].phase.todo
    && s.workers[j].phase.Collect? && s.workers[i].v in s.workers[j].phase.todo
    && Edge(s.workers[i].v, s.workers[j].v) !in s.closed
  }

  /** Worker i passes its value on to worker j, which has yet to choose it. */
  ghost function Handed(s: State, i: nat, j: nat): State
    requires CanHand(s, i, j)
  {
    var u, w := s.workers[i], s.workers[j];
    s.(workers := s.workers[i := Worker(u.v, Emit(u.phase.ok, u.phase.todo - {w.v}))]
                           [j := Worker(w.v, Collect(w.phase.todo - {u.v}))],
       closed := s.closed + {Edge(u.v, w.v)})
  }

  function HandActions(u: Vertex, w: Vertex, i: nat, j: nat): seq<Action> {
    [Choose(j, u), ChooseTo(i, w), Send(i, j), CloseCh(i)]
  }

  lemma HandIt(c: Config, s: State, i: nat, j: nat)
    requires CanHand(s, i, j)
    ensures Steps(c, s, HandActions(s.workers[i].v, s.workers[j].v, i, j), Handed(s, i, j))
  {
    var u, w := s.workers[i], s.workers[j];
    var s1 := Next(c, s, Choose(j, u.v));
    var s2 := Next(c, s1, ChooseTo(i, w.v));
    var s3 := Next(c, s2, Send(i, j));
    var s4 := Next(c, s3, CloseCh(i));
    assert s4.workers == Handed(s, i, j).workers;
    assert s4 == Handed(s, i, j);
    var acts := HandActions(u.v, w.v, i, j);
    hide Enabled, Next, Handed;
    assert Steps(c, s4, acts[4..], s4);
    assert acts[3..][1..] == acts[4..] && acts[2..][1..] == acts[3..] && acts[1..][1..] == acts[2..];
    assert Steps(c, s3, acts[3..], s4);
    assert Steps(c, s2, acts[2..], s4);
    assert Steps(c, s1, acts[1..], s4);
  }

  // ----- visit everything before any function begins -----

  /** Only traversals have moved: every worker still has all its dependencies to choose. */
  ghost predicate OnlyVisited(c: Config, s: State) {
    && OnePerVertex(s.visited, s.workers) && Covered(c, s.visited, s.tokens) && c.from in s.visited
    && (forall k :: 0 <= k < |s.tokens| ==> s.tokens[k].Check?)
    && (forall i :: 0 <= i < |s.workers| ==> s.workers[i] == NewWorker(c, s.workers[i].v))
    && s == State(s.visited, s.tokens, s.workers, {}, {}, Pick(c.vs), false, map[], [])
  }

  lemma StepOne(c: Config, s: State, a: Action)
    requires Enabled(c, s, a)
    ensures Steps(c, s, [a], Next(c, s, a))
  {
    assert Steps(c, Next(c, s, a), [a][1..], Next(c, s, a));
  }

  /** The first token is taken through its look and, if that is due, its visit. */
  lemma TakeToken(c: Config, s: State) returns (acts: seq<Action>, t: State)
    requires OnlyVisited(c, s) && s.tokens != []
    ensures Steps(c, s, acts, t) && acts != [] && OnlyVisited(c, t)
    ensures t.visited == s.visited + {s.tokens[0].v}
  {
    var v := s.tokens[0].v;
    var kids := SomeList(Downs(c.es, v));
    CoveredAfter(c, s, 0, kids, v);
    if v in s.visited {
      assert s.visited + {v} == s.visited;
      acts, t := [Look(0, kids)], Next(c, s, Look(0, kids));
      StepOne(c, s, Look(0, kids));
    } else {
      var m := s;
      acts := [];
      if !c.atomic {
        m := Next(c, s, Look(0, kids));
        StepOne(c, s, Look(0, kids));
        acts := [Look(0, kids)];
        assert WithoutToken(m, 0, kids) == WithoutToken(s, 0, kids);
      }
      t := Next(c, m, Visit(0, kids));
      StepOne(c, m, Visit(0, kids));
      StepsConcat(c, s, acts, m, [Visit(0, kids)], t);
      acts := acts + [Visit(0, kids)];
      VisitAdds(c, s.visited, s.workers, v);
      assert t.workers == s.workers + [NewWorker(c, v)];
    }
  }

  lemma VisitAdds(c: Config, visited: set<Vertex>, ws: seq<Worker>, v: Vertex)
    requires OnePerVertex(visited, ws) && v !in visited
    ensures OnePerVertex(visited + {v}, ws + [NewWorker(c, v)])
  {
    var us := ws + [NewWorker(c, v)];
    forall x | x in visited + {v}
      ensures exists i :: 0 <= i < |us| && us[i].v == x
    {
      if x == v {
        assert us[|ws|].v == x;
      } else {
        var i :| 0 <= i < |ws| && ws[i].v == x;
        assert us[i].v == x;
      }
    }
  }

  lemma {:induction false} TakeTokens(c: Config, s: State) returns (acts: seq<Action>, t: State)
    requires WellFormed(c) && Acyclic(c.es) && Inv(c, s) && OnlyVisited(c, s)
    ensures Steps(c, s, acts, t) && OnlyVisited(c, t) && t.tokens == [] && Inv(c, t)
    decreases Measure(c, s)
  {
    if s.tokens == [] {
      acts, t := [], s;
    } else {
      var some, m := TakeToken(c, s);
      RunsAreFinite(c, s, some, m);
      InvSteps(c, s, some, m);
      var more;
      more, t := TakeTokens(c, m);
      StepsConcat(c, s, some, m, more, t);
      acts := some + more;
    }
  }

  /** From the start there is a run that visits every vertex before any function begins. */
  lemma VisitAll(c: Config) returns (acts: seq<Action>, t: State)
    requires WellFormed(c) && Acyclic(c.es) && Rooted(c.vs, c.es, c.from)
    ensures Steps(c, Init, acts, t) && Inv(c, t)
    ensures OnlyVisited(c, t) && t.tokens == [] && t.visited == c.vs
  {
    var kids := SomeList(Downs(c.es, c.from));
    assert Inv(c, Init);
    hide Acyclic, Rooted, Covered, WorkersOK;
    var s := Next(c, Init, Begin(kids));
    StepOne(c, Init, Begin(kids));
    InvBegin(c, Init, Begin(kids));
    BeginVisits(c, kids);
    var more;
    more, t := TakeTokens(c, s);
    StepsConcat(c, Init, [Begin(kids)], s, more, t);
    acts := [Begin(kids)] + more;
    VisitedIsAll(c, t);
  }

  lemma VisitedIsAll(c: Config, s: State)
    requires WellFormed(c) && Rooted(c.vs, c.es, c.from) && WorkersOK(c, s.workers)
    requires OnePerVertex(s.visited, s.workers) && Covered(c, s.visited, []) && c.from in s.visited
    ensures s.visited == c.vs
  {
    forall v | v in c.vs
      ensures v in s.visited
    {
      var p :| Walk(c.es, c.from, p, v);
      VisitedDownTo(c, s, c.from, p, v);
    }
    forall v | v in s.visited
      ensures v in c.vs
    {
      var i := FindWorker(s.visited, s.workers, v);
      assert WorkerOK(c, s.workers[i]);
    }
  }

  lemma BeginVisits(c: Config, kids: seq<Vertex>)
    requires WellFormed(c) && Lists(kids, Downs(c.es, c.from))
    ensures OnlyVisited(c, Next(c, Init, Begin(kids)))
  {
    var s := Next(c, Init, Begin(kids));
    assert s.workers[0].v == c.from;
    forall w | w in Downs(c.es, c.from)
      ensures Check(w) in s.tokens
    {
      var i :| 0 <= i < |kids| && kids[i] == w;
      assert s.tokens[i] == Check(w);
    }
  }

  // ----- run the functions of some vertices, and only those -----

  ghost predicate AncestorClosed(c: Config, vs: set<Vertex>) {
    vs <= c.vs && forall e :: e in c.es && e.to in vs ==> e.from in vs
  }

  /** Functions have run for done only; each of these has passed its value on within in, and
      nowhere else. */
  ghost function PhaseWithin(c: Config, within: set<Vertex>, done: set<Vertex>, v: Vertex): Phase {
    if v in done then Emit(true, Downs(c.es, v) - within)
    else if v in within then Collect(Deps(c.es, v) - done)
    else Collect(Deps(c.es, v))
  }

  /** The same while v, the latest to run, has passed its value on to kids. */
  ghost function PhaseMid(c: Config, within: set<Vertex>, done: set<Vertex>, v: Vertex, kids: set<Vertex>,
                          x: Vertex): Phase {
    if x == v then Emit(true, Downs(c.es, v) - kids)
    else if x in kids then Collect(Deps(c.es, x) - done - {v})
    else PhaseWithin(c, within, done, x)
  }

  /** The rest of such a state: which edges are closed, what is in the log, and what has not begun. */
  ghost predicate Frame(c: Config, s: State, ran: set<Vertex>) {
    && s.tokens == [] && s.main == Pick(c.vs) && !s.cancelled && s.doneClosed == {}
    && OnePerVertex(c.vs, s.workers)
    && (forall e :: e in s.log ==> e.v in ran && (e.Ended? ==> e.ok))
  }

  ghost predicate Within(c: Config, within: set<Vertex>, done: set<Vertex>, s: State) {
    && Frame(c, s, done)
    && (forall i :: 0 <= i < |s.workers| ==> s.workers[i].phase == PhaseWithin(c, within, done, s.workers[i].v))
    && (forall e :: e in s.closed ==> e.from in done)
  }

  ghost predicate Mid(c: Config, within: set<Vertex>, done: set<Vertex>, v: Vertex, kids: set<Vertex>, s: State) {
    && Frame(c, s, done + {v})
    && (forall i :: 0 <= i < |s.workers| ==> s.workers[i].phase == PhaseMid(c, within, done, v, kids, s.workers[i].v))
    && (forall e :: e in s.closed ==> e.from in done || (e.from == v && e.to in kids))
  }

  lemma OnePerUpdate(vs: set<Vertex>, ws: seq<Worker>, us: seq<Worker>)
    requires OnePerVertex(vs, ws) && |us| == |ws| && forall i :: 0 <= i < |ws| ==> us[i].v == ws[i].v
    ensures OnePerVertex(vs, us)
  {
    forall x | x in vs
      ensures exists i :: 0 <= i < |us| && us[i].v == x
    {
      var i :| 0 <= i < |ws| && ws[i].v == x;
      assert us[i].v == x;
    }
  }

  lemma FindWorker(vs: set<Vertex>, ws: seq<Worker>, v: Vertex) returns (i: nat)
    requires OnePerVertex(vs, ws) && v in vs
    ensures i < |ws| && ws[i].v == v
  {
    i :| 0 <= i < |ws| && ws[i].v == v;
  }

  lemma BeginMid(c: Config, within: set<Vertex>, done: set<Vertex>, s: State, v: Vertex)
    returns (acts: seq<Action>, t: State)
    requires Within(c, within, done, s) && v in within && v in c.vs && v !in done && Deps(c.es, v) <= done
    ensures Steps(c, s, acts, t) && Mid(c, within, done, v, {}, t)
  {
    var i := FindWorker(c.vs, s.workers, v);
    assert Deps(c.es, v) - done == {};
    t := RunIt(c, s, i);
    acts := [RunFn(i), EndFn(i, true)];
    OnePerUpdate(c.vs, s.workers, t.workers);
    assert Downs(c.es, v) - {} == Downs(c.es, v);
  }

  lemma HandMid(c: Config, within: set<Vertex>, done: set<Vertex>, v: Vertex, kids: set<Vertex>, s: State, w: Vertex)
    returns (acts: seq<Action>, t: State)
    requires Mid(c, within, done, v, kids, s) && v !in done && AncestorClosed(c, within) && AncestorClosed(c, done)
    requires w in within && w !in kids && Edge(v, w) in c.es && v in within && v != w
    ensures Steps(c, s, acts, t) && Mid(c, within, done, v, kids + {w}, t)
  {
    var i := FindWorker(c.vs, s.workers, v);
    var j := FindWorker(c.vs, s.workers, w);
    DepsDowns(c.es, v, w);
    assert w !in done;
    assert CanHand(s, i, j);
    HandIt(c, s, i, j);
    acts, t := HandActions(v, w, i, j), Handed(s, i, j);
    hide Steps, HandActions, AncestorClosed, PhaseMid;
    HandedPhases(c, within, done, v, kids, s, i, j);
    OnePerUpdate(c.vs, s.workers, t.workers);
  }

  lemma HandedPhases(c: Config, within: set<Vertex>, done: set<Vertex>, v: Vertex, kids: set<Vertex>, s: State,
                     i: nat, j: nat)
    requires CanHand(s, i, j) && OnePerVertex(c.vs, s.workers) && s.workers[i].v == v && v in within && v !in done
    requires s.workers[j].v in within && s.workers[j].v !in kids + done
    requires forall k :: 0 <= k < |s.workers| ==>
             s.workers[k].phase == PhaseMid(c, within, done, v, kids, s.workers[k].v)
    ensures var t, more := Handed(s, i, j), kids + {s.workers[j].v};
            forall k :: 0 <= k < |t.workers| ==>
              t.workers[k].phase == PhaseMid(c, within, done, v, more, t.workers[k].v)
  {
    var t, w := Handed(s, i, j), s.workers[j].v;
    assert Downs(c.es, v) - kids - {w} == Downs(c.es, v) - (kids + {w});
    forall k | 0 <= k < |t.workers|
      ensures t.workers[k].phase == PhaseMid(c, within, done, v, kids + {w}, t.workers[k].v)
    {
      assert k != i && k != j ==> t.workers[k] == s.workers[k] && t.workers[k].v != w;
    }
  }

  lemma {:induction false} HandAll(c: Config, within: set<Vertex>, done: set<Vertex>, v: Vertex, kids: set<Vertex>,
                                   s: State)
    returns (acts: seq<Action>, t: State)
    requires Acyclic(c.es) && AncestorClosed(c, within) && AncestorClosed(c, done)
    requires v in within && v !in done && kids <= Downs(c.es, v) * within
    requires Mid(c, within, done, v, kids, s)
    ensures Steps(c, s, acts, t) && Mid(c, within, done, v, Downs(c.es, v) * within, t)
    decreases Downs(c.es, v) * within - kids
  {
    hide Mid, AncestorClosed;
    if Downs(c.es, v) * within <= kids {
      assert kids == Downs(c.es, v) * within;
      acts, t := [], s;
    } else {
      var w :| w in Downs(c.es, v) * within && w !in kids;
      DepsDowns(c.es, v, w);
      NoWayBack(c.es, v, w);
      var some, m := HandMid(c, within, done, v, kids, s, w);
      var more;
      more, t := HandAll(c, within, done, v, kids + {w}, m);
      StepsConcat(c, s, some, m, more, t);
      acts := some + more;
    }
  }

  lemma EndMid(c: Config, within: set<Vertex>, done: set<Vertex>, v: Vertex, s: State)
    requires AncestorClosed(c, within) && AncestorClosed(c, done) && v in within && v !in done
    requires Mid(c, within, done, v, Downs(c.es, v) * within, s)
    ensures Within(c, within, done + {v}, s)
  {
    forall i | 0 <= i < |s.workers|
      ensures s.workers[i].phase == PhaseWithin(c, within, done + {v}, s.workers[i].v)
    {
      var x := s.workers[i].v;
      DepsDowns(c.es, v, x);
      if x == v {
        assert Downs(c.es, v) - Downs(c.es, v) * within == Downs(c.es, v) - within;
      } else if x in Downs(c.es, v) * within {
        assert x !in done;
        assert Deps(c.es, x) - done - {v} == Deps(c.es, x) - (done + {v});
      } else if x in within && x !in done {
        assert v !in Deps(c.es, x);
        assert Deps(c.es, x) - done == Deps(c.es, x) - (done + {v});
      }
    }
  }

  lemma RunOne(c: Config, within: set<Vertex>, done: set<Vertex>, s: State, v: Vertex)
    returns (acts: seq<Action>, t: State)
    requires Acyclic(c.es) && AncestorClosed(c, within) && AncestorClosed(c, done)
    requires Within(c, within, done, s) && v in within && v !in done && Deps(c.es, v) <= done
    ensures Steps(c, s, acts, t) && Within(c, within, done + {v}, t)
  {
    var some, m := BeginMid(c, within, done, s, v);
    var more;
    more, t := HandAll(c, within, done, v, {}, m);
    EndMid(c, within, done, v, t);
    StepsConcat(c, s, some, m, more, t);
    acts := some + more;
  }

  /** An ancestor-closed set that is not done has a vertex all of whose dependencies are. */
  lemma {:induction false} NextToRun(c: Config, goal: set<Vertex>, done: set<Vertex>, x: Vertex) returns (v: Vertex)
    requires Acyclic(c.es) && AncestorClosed(c, goal) && x in goal && x !in done
    ensures v in goal && v !in done && Deps(c.es, v) <= done
    decreases Ancestry(c.es, x)
  {
    if Deps(c.es, x) <= done {
      v := x;
    } else {
      var y :| y in Deps(c.es, x) && y !in done;
      DepsDowns(c.es, y, x);
      ReachShrinks(c.es, y, x);
      v := NextToRun(c, goal, done, y);
    }
  }

  lemma ClosedInsert(c: Config, done: set<Vertex>, v: Vertex)
    requires AncestorClosed(c, done) && v in c.vs && Deps(c.es, v) <= done
    ensures AncestorClosed(c, done + {v})
  {
    forall e | e in c.es && e.to in done + {v}
      ensures e.from in done + {v}
    {
      DepsDowns(c.es, e.from, e.to);
      assert Edge(e.from, e.to) == e;
    }
  }

  /** Every ancestor-closed goal can be run with no function outside it begun. */
  lemma {:induction false} RunWithin(c: Config, within: set<Vertex>, done: set<Vertex>, goal: set<Vertex>, s: State)
    returns (acts: seq<Action>, t: State)
    requires Acyclic(c.es) && AncestorClosed(c, within) && AncestorClosed(c, done) && AncestorClosed(c, goal)
    requires done <= goal <= within && Within(c, within, done, s)
    ensures Steps(c, s, acts, t) && Within(c, within, goal, t)
    decreases goal - done
  {
    hide Within, Acyclic;
    if done == goal {
      acts, t := [], s;
    } else {
      var x :| x in goal && x !in done;
      var v := NextToRun(c, goal, done, x);
      var some, m := RunOne(c, within, done, s, v);
      ClosedInsert(c, done, v);
      var more;
      more, t := RunWithin(c, within, done + {v}, goal, m);
      StepsConcat(c, s, some, m, more, t);
      acts := some + more;
    }
  }

  /** From the start: run goal, passing values on within the given set only. */
  lemma ReachWithin(c: Config, within: set<Vertex>, goal: set<Vertex>) returns (acts: seq<Action>, t: State)
    requires WellFormed(c) && Acyclic(c.es) && Rooted(c.vs, c.es, c.from)
    requires AncestorClosed(c, within) && AncestorClosed(c, goal) && goal <= within
    ensures Steps(c, Init, acts, t) && Within(c, within, goal, t)
  {
    var some, m := VisitAll(c);
    forall i | 0 <= i < |m.workers|
      ensures m.workers[i].phase == PhaseWithin(c, within, {}, m.workers[i].v)
    {
      assert m.workers[i] == NewWorker(c, m.workers[i].v);
      assert Deps(c.es, m.workers[i].v) - {} == Deps(c.es, m.workers[i].v);
    }
    var more;
    more, t := RunWithin(c, within, {}, goal, m);
    StepsConcat(c, Init, some, m, more, t);
    acts := some + more;
  }

  // ----- the order of two functions -----

  /** In every run, the function of w begins only after that of u has ended. */
  ghost predicate Forced(c: Config, u: Vertex, w: Vertex) {
    forall s, j :: Reachable(c, s) && 0 <= j < |s.log| && s.log[j] == Started(w) ==> HasEnded(s.log[..j], u)
  }

  lemma AncestryClosed(c: Config, w: Vertex)
    requires WellFormed(c) && Acyclic(c.es) && w in c.vs
    ensures AncestorClosed(c, Ancestry(c.es, w)) && AncestorClosed(c, Ancestry(c.es, w) - {w})
    ensures w in Ancestry(c.es, w) && Deps(c.es, w) <= Ancestry(c.es, w) - {w}
  {
    ReachesSelf(c.es, w);
    ReachMember(c.es, w, w);
    forall e | e in c.es && e.to in Ancestry(c.es, w)
      ensures e.from in Ancestry(c.es, w) - {w}
    {
      ReachMember(c.es, w, e.to);
      assert Edge(e.from, e.to) == e;
      EdgeReaches(c.es, e.from, e.to, w);
      ReachMember(c.es, w, e.from);
      NoWayBack(c.es, e.from, e.to);
    }
    forall u | u in Deps(c.es, w)
      ensures u in Ancestry(c.es, w) - {w}
    {
      DepsDowns(c.es, u, w);
    }
  }

  /** Without a path from u to w there is a run that begins w and not u. */
  lemma NotForced(c: Config, u: Vertex, w: Vertex) returns (s: State)
    requires WellFormed(c) && Acyclic(c.es) && Rooted(c.vs, c.es, c.from)
    requires w in c.vs && u != w && !Reaches(c.es, u, w)
    ensures Reachable(c, s) && s.log != [] && s.log[|s.log| - 1] == Started(w)
    ensures forall e :: e in s.log ==> e.v != u
  {
    AncestryClosed(c, w);
    var before := Ancestry(c.es, w) - {w};
    var acts, t := ReachWithin(c, Ancestry(c.es, w), before);
    var i := FindWorker(c.vs, t.workers, w);
    assert Deps(c.es, w) - before == {};
    s := Next(c, t, RunFn(i));
    StepsSnoc(c, Init, acts, t, RunFn(i));
    ReachMember(c.es, w, u);
  }

  /** The executor orders two functions exactly when the graph has a path between them. */
  lemma OrderIff(c: Config, u: Vertex, w: Vertex)
    requires WellFormed(c) && Acyclic(c.es) && Rooted(c.vs, c.es, c.from) && w in c.vs && u != w
    ensures Forced(c, u, w) <==> Reaches(c.es, u, w)
  {
    if Reaches(c.es, u, w) {
      forall s, j | Reachable(c, s) && 0 <= j < |s.log| && s.log[j] == Started(w)
        ensures HasEnded(s.log[..j], u)
      {
        StartAfterAncestors(c, s, u, w, j);
      }
    } else {
      var s := NotForced(c, u, w);
      var j := |s.log| - 1;
      assert !HasEnded(s.log[..j], u);
    }
  }

  // ----- runs without failure -----

  /** Nothing has failed and nobody has cancelled. */
  ghost predicate Calm(s: State) {
    !s.cancelled && forall e :: e in s.log && e.Ended? ==> e.ok
  }

  lemma CalmAction(c: Config, s: State) returns (a: Action)
    requires Calm(s) && !Stuck(c, s)
    ensures Enabled(c, s, a) && Calm(Next(c, s, a))
  {
    a :| Enabled(c, s, a) && !a.Cancel?;
    if a.EndFn? {
      a := EndFn(a.i, true);
    }
  }

  lemma InitOK(c: Config)
    ensures Inv(c, Init) && Atomic(c, Init)
  {}

  lemma ThenOffer(c: Config, acts: seq<Action>, s: State, i: nat, to: Vertex) returns (more: seq<Action>, t: State)
    requires Steps(c, Init, acts, s) && i < |s.workers| && s.workers[i].phase.Emit? && to in s.workers[i].phase.todo
    ensures Steps(c, Init, more, t)
    ensures var w := s.workers[i];
            t == s.(workers := s.workers[i := Worker(w.v, Offer(w.phase.ok, w.phase.todo - {to}, to))])
  {
    more, t := acts + [ChooseTo(i, to)], Next(c, s, ChooseTo(i, to));
    StepsSnoc(c, Init, acts, s, ChooseTo(i, to));
  }

  lemma ThenAwait(c: Config, acts: seq<Action>, s: State, j: nat, dep: Vertex) returns (more: seq<Action>, t: State)
    requires Steps(c, Init, acts, s) && j < |s.workers| && s.workers[j].phase.Collect? && dep in s.workers[j].phase.todo
    ensures Steps(c, Init, more, t)
    ensures t == s.(workers := s.workers[j := Worker(s.workers[j].v, Await(s.workers[j].phase.todo - {dep}, dep))])
  {
    more, t := acts + [Choose(j, dep)], Next(c, s, Choose(j, dep));
    StepsSnoc(c, Init, acts, s, Choose(j, dep));
  }

  lemma WorkerWithin(c: Config, up: set<Vertex>, s: State, v: Vertex) returns (i: nat)
    requires Within(c, up, up, s) && v in c.vs
    ensures i < |s.workers| && s.workers[i].v == v
    ensures s.workers[i].phase == if v in up then Emit(true, Downs(c.es, v) - up) else Collect(Deps(c.es, v))
    ensures Calm(s)
  {
    i := FindWorker(c.vs, s.workers, v);
  }
}
