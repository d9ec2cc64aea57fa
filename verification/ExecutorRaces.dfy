/** What the race for the visited mark can do. The code reads visited in one critical section and sets
    it in another, so two traversals can both schedule a vertex. That is harmless exactly where no
    vertex has two dependencies. */
module ExecutorRaces {
  import opened Graphs
  import opened Executor
  import opened ExecutorSafety
  import opened ExecutorProgress
  import opened ExecutorRuns
  import opened ExecutorSchedules
  import opened ExecutorDeadlocks

  // ----- trees: only one traversal ever comes to a vertex -----

  ghost predicate NoFanIn(es: Edges) {
    forall v :: !FanIn(es, v)
  }

  ghost predicate TreeOK(c: Config, visited: set<Vertex>, tokens: seq<Token>) {
    && (forall i, j :: 0 <= i < j < |tokens| ==> tokens[i].v != tokens[j].v)
    && (forall k :: 0 <= k < |tokens| ==> tokens[k].v !in visited)
    && (forall k, u :: 0 <= k < |tokens| && u in Deps(c.es, tokens[k].v) ==> u in visited)
    && (forall x, u :: x in visited && u in Deps(c.es, x) ==> u in visited)
  }

  lemma {:induction false} ListedOnce(kids: seq<Vertex>, vs: set<Vertex>)
    requires (forall x :: x in kids <==> x in vs) && |kids| <= |vs|
    ensures |kids| == |vs| && forall i, j :: 0 <= i < j < |kids| ==> kids[i] != kids[j]
    decreases |kids|
  {
    if kids != [] {
      var n := |kids| - 1;
      var rest := kids[..n];
      assert kids == rest + [kids[n]];
      assert kids[n] in vs;
      if kids[n] in rest {
        assert forall x :: x in rest <==> x in vs;
        ListedOnce(rest, vs);
      } else {
        assert forall x :: x in rest <==> x in vs - {kids[n]};
        ListedOnce(rest, vs - {kids[n]});
      }
    } else {
      assert vs == {};
    }
  }

  /** In a tree the children of a vertex that is now visited for the first time are new. */
  lemma TreeSpawn(c: Config, visited: set<Vertex>, tokens: seq<Token>, v: Vertex, kids: seq<Vertex>)
    requires NoFanIn(c.es) && Acyclic(c.es) && TreeOK(c, visited, tokens) && Lists(kids, Downs(c.es, v))
    requires v !in visited && Deps(c.es, v) <= visited && forall k :: 0 <= k < |tokens| ==> tokens[k].v != v
    ensures TreeOK(c, visited + {v}, tokens + Spawn(kids))
  {
    ListedOnce(kids, Downs(c.es, v));
    var ts := tokens + Spawn(kids);
    forall x | x in kids
      ensures x != v && x !in visited && Deps(c.es, x) == {v}
      ensures forall k :: 0 <= k < |tokens| ==> tokens[k].v != x
    {
      DepsDowns(c.es, v, x);
      NoWayBack(c.es, v, x);
      forall u
        ensures u in Deps(c.es, x) <==> u == v
      {
        DepsDowns(c.es, u, x);
        if Edge(u, x) in c.es && u != v { assert FanIn(c.es, x); }
      }
    }
    forall k | 0 <= k < |ts|
      ensures ts[k].v !in visited + {v} && Deps(c.es, ts[k].v) <= visited + {v}
    {
      if k < |tokens| { assert ts[k] == tokens[k]; } else { assert ts[k].v == kids[k - |tokens|]; }
    }
    forall i, j | 0 <= i < j < |ts|
      ensures ts[i].v != ts[j].v
    {
      if i < |tokens| { assert ts[i] == tokens[i]; } else { assert ts[i].v == kids[i - |tokens|]; }
      if j < |tokens| { assert ts[j] == tokens[j]; } else { assert ts[j].v == kids[j - |tokens|]; }
    }
  }

  ghost function Dropped(tokens: seq<Token>, k: nat): seq<Token>
    requires k < |tokens|
  {
    tokens[..k] + tokens[k + 1..]
  }

  lemma TreeDrop(c: Config, visited: set<Vertex>, tokens: seq<Token>, k: nat)
    requires TreeOK(c, visited, tokens) && k < |tokens|
    ensures TreeOK(c, visited, Dropped(tokens, k))
    ensures forall m :: 0 <= m < |Dropped(tokens, k)| ==> Dropped(tokens, k)[m].v != tokens[k].v
  {
    var ts := Dropped(tokens, k);
    assert forall m :: 0 <= m < |ts| ==> ts[m] == tokens[if m < k then m else m + 1];
  }

  lemma TreeStep(c: Config, s: State, a: Action)
    requires WellFormed(c) && Acyclic(c.es) && NoFanIn(c.es) && Enabled(c, s, a)
    requires TreeOK(c, s.visited, s.tokens) && (s.main.Idle? ==> s.visited == {} && s.tokens == [])
    ensures TreeOK(c, Next(c, s, a).visited, Next(c, s, a).tokens)
  {
    hide WellFormed, Acyclic, NoFanIn;
    if a.Begin? {
      assert Deps(c.es, c.from) == {} by { FromHasNone(c); }
      TreeSpawn(c, {}, [], c.from, a.kids);
      assert {} + {c.from} == {c.from} && [] + Spawn(a.kids) == Spawn(a.kids);
    } else if a.Visit? {
      TreeDrop(c, s.visited, s.tokens, a.k);
      TreeSpawn(c, s.visited, Dropped(s.tokens, a.k), s.tokens[a.k].v, a.kids);
    } else if a.Look? {
      assert s.tokens[a.k].v !in s.visited;
    }
  }

  lemma FromHasNone(c: Config)
    requires WellFormed(c)
    ensures Deps(c.es, c.from) == {}
  {}

  /** The state in which the look that precedes a visit has not been taken. */
  ghost function AsAtomic(s: State): State {
    s.(tokens := seq(|s.tokens|, k requires 0 <= k < |s.tokens| => Check(s.tokens[k].v)))
  }

  /** A step of the racy executor on a tree is a step of the atomic one, or the look before a visit. */
  lemma TreeSimulates(c: Config, s: State, a: Action)
    requires TreeOK(c, s.visited, s.tokens) && Enabled(c, s, a) && !c.atomic
    ensures var d := c.(atomic := true);
            || AsAtomic(Next(c, s, a)) == AsAtomic(s)
            || (Enabled(d, AsAtomic(s), a) && Next(d, AsAtomic(s), a) == AsAtomic(Next(c, s, a)))
  {
    if a.Look? {
      assert AsAtomic(Next(c, s, a)).tokens == AsAtomic(s).tokens;
    } else if a.Visit? {
      VisitSimulates(c, s, a);
    } else if a.Begin? {
      assert AsAtomic(Next(c, s, a)).tokens == Spawn(a.kids);
    }
  }

  lemma VisitSimulates(c: Config, s: State, a: Action)
    requires TreeOK(c, s.visited, s.tokens) && a.Visit? && Enabled(c, s, a) && !c.atomic
    ensures var d := c.(atomic := true);
            Enabled(d, AsAtomic(s), a) && Next(d, AsAtomic(s), a) == AsAtomic(Next(c, s, a))
  {
    hide TreeOK;
    assert s.tokens[a.k].v !in s.visited by { TreeUnvisited(c, s, a.k); }
    var d := c.(atomic := true);
    var ts, us := WithoutToken(AsAtomic(s), a.k, a.kids), AsAtomic(Next(c, s, a)).tokens;
    assert |ts| == |us|;
    forall m | 0 <= m < |ts|
      ensures ts[m] == us[m]
    {
      var rest := s.tokens[..a.k] + s.tokens[a.k + 1..];
      assert WithoutToken(s, a.k, a.kids)[m] ==
             if m < |rest| then s.tokens[if m < a.k then m else m + 1] else Spawn(a.kids)[m - |rest|];
    }
    assert ts == us;
  }

  lemma TreeUnvisited(c: Config, s: State, k: nat)
    requires TreeOK(c, s.visited, s.tokens) && k < |s.tokens|
    ensures s.tokens[k].v !in s.visited
  {}

  lemma {:induction false} TreeSteps(c: Config, s: State, acts: seq<Action>, t: State)
    requires WellFormed(c) && Acyclic(c.es) && NoFanIn(c.es) && !c.atomic && Inv(c, s) && Steps(c, s, acts, t)
    requires TreeOK(c, s.visited, s.tokens) && Reachable(c.(atomic := true), AsAtomic(s))
    ensures TreeOK(c, t.visited, t.tokens) && Reachable(c.(atomic := true), AsAtomic(t))
    decreases |acts|
  {
    hide Inv, TreeOK, Reachable, WellFormed, Acyclic, NoFanIn, AsAtomic, Enabled, Next;
    if acts != [] {
      var d, m := c.(atomic := true), Next(c, s, acts[0]);
      IdleIsInit(c, s);
      TreeStep(c, s, acts[0]);
      TreeSimulates(c, s, acts[0]);
      InvStep(c, s, acts[0]);
      if AsAtomic(m) != AsAtomic(s) { ReachableStep(d, AsAtomic(s), acts[0]); }
      TreeSteps(c, m, acts[1..], t);
    }
  }

  lemma IdleIsInit(c: Config, s: State)
    requires Inv(c, s)
    ensures s.main.Idle? ==> s.visited == {} && s.tokens == []
  {}

  lemma ReachableStep(c: Config, s: State, a: Action)
    requires Reachable(c, s) && Enabled(c, s, a)
    ensures Reachable(c, Next(c, s, a))
  {
    var acts :| Steps(c, Init, acts, s);
    StepsSnoc(c, Init, acts, s, a);
  }

  lemma StuckWithoutTokens(c: Config, s: State)
    requires Stuck(c, s) && !c.atomic
    ensures s.tokens == [] && Stuck(c.(atomic := true), s)
  {
    if s.tokens != [] {
      var kids := SomeList(Downs(c.es, s.tokens[0].v));
      if s.tokens[0].Check? { NotEnabled(c, s, Look(0, kids)); } else { NotEnabled(c, s, Visit(0, kids)); }
    }
    forall a | Enabled(c.(atomic := true), s, a)
      ensures a.Cancel?
    {
      assert Enabled(c, s, a);
    }
  }

  lemma TreeIsIrredundant(es: Edges)
    requires Acyclic(es) && NoFanIn(es)
    ensures Irredundant(es)
  {
    forall e | e in es
      ensures !Redundant(es, e)
    {
      assert Edge(e.from, e.to) == e;
      RedundantByParent(es, e.from, e.to);
      assert !FanIn(es, e.to);
    }
  }

  /** Without fan-in the race has nothing to race for. */
  lemma TreeReturns(c: Config, s: State)
    requires WellFormed(c) && Acyclic(c.es) && Rooted(c.vs, c.es, c.from) && NoFanIn(c.es) && !c.atomic
    requires Reachable(c, s) && Stuck(c, s)
    ensures s.main.Returned?
  {
    hide Acyclic, Rooted, Inv;
    var d := c.(atomic := true);
    var acts :| Steps(c, Init, acts, s);
    InitOK(c);
    assert AsAtomic(Init) == Init && Steps(d, Init, [], Init);
    TreeSteps(c, Init, acts, s);
    StuckWithoutTokens(c, s);
    assert AsAtomic(s).tokens == s.tokens;
    assert AsAtomic(s) == s;
    TreeIsIrredundant(c.es);
    NoDeadlockFanIn(d, s);
  }

  // ----- fan-in: two workers can share out the values of one vertex -----

  /** Let traversals run until one is about to look at w, which is not visited. Then only one parent of
      w is. */
  lemma {:induction false} UntilToken(c: Config, s: State, w: Vertex)
    returns (acts: seq<Action>, t: State, k: nat, u: Vertex)
    requires WellFormed(c) && Acyclic(c.es) && Rooted(c.vs, c.es, c.from) && Inv(c, s) && OnlyVisited(c, s)
    requires w in c.vs && w !in s.visited && Check(w) !in s.tokens
    ensures Steps(c, s, acts, t) && OnlyVisited(c, t) && Inv(c, t) && w !in t.visited
    ensures k < |t.tokens| && t.tokens[k] == Check(w)
    ensures forall a :: a in t.visited && Edge(a, w) in c.es ==> a == u
    decreases Measure(c, s)
  {
    hide Acyclic, Rooted, Inv;
    assert s.tokens != [] by {
      if s.tokens == [] { AllVisited(c, s); }
    }
    var v := s.tokens[0].v;
    assert s.tokens[0] == Check(v) && v != w;
    var some, m := TakeToken(c, s);
    RunsAreFinite(c, s, some, m);
    InvSteps(c, s, some, m);
    forall a | a in s.visited
      ensures Edge(a, w) !in c.es
    {
      DepsDowns(c.es, a, w);
    }
    if Check(w) in m.tokens {
      k :| 0 <= k < |m.tokens| && m.tokens[k] == Check(w);
      acts, t, u := some, m, v;
    } else {
      var more;
      more, t, k, u := UntilToken(c, m, w);
      StepsConcat(c, s, some, m, more, t);
      acts := some + more;
    }
  }

  lemma AllVisited(c: Config, s: State)
    requires WellFormed(c) && Rooted(c.vs, c.es, c.from) && Inv(c, s) && OnlyVisited(c, s) && s.tokens == []
    ensures s.visited == c.vs
  {
    VisitedIsAll(c, s);
  }

  /** One traversal has found w unvisited and is held before its visit; the others have looked at
      nothing. Every other edge than u -> w is covered without it. */
  ghost predicate Held(c: Config, s: State, h: nat, u: Vertex, w: Vertex) {
    && OnePerVertex(s.visited, s.workers) && c.from in s.visited
    && h < |s.tokens| && s.tokens[h] == Mark(w)
    && (forall k :: 0 <= k < |s.tokens| && k != h ==> s.tokens[k].Check?)
    && (forall a, b :: a in s.visited && b in Downs(c.es, a) && b !in s.visited && !(a == u && b == w) ==>
      Check(b) in s.tokens)
    && (forall i :: 0 <= i < |s.workers| ==> s.workers[i] == NewWorker(c, s.workers[i].v))
    && s == State(s.visited, s.tokens, s.workers, {}, {}, Pick(c.vs), false, map[], [])
  }

  lemma HoldOne(c: Config, s: State, k: nat, u: Vertex, w: Vertex) returns (acts: seq<Action>, t: State)
    requires !c.atomic && OnlyVisited(c, s) && k < |s.tokens| && s.tokens[k] == Check(w) && w !in s.visited
    requires forall a :: a in s.visited && Edge(a, w) in c.es ==> a == u
    ensures Steps(c, s, acts, t) && Held(c, t, k, u, w)
  {
    var kids := SomeList(Downs(c.es, w));
    acts, t := [Look(k, kids)], Next(c, s, Look(k, kids));
    StepOne(c, s, Look(k, kids));
    forall a, b | a in t.visited && b in Downs(c.es, a) && b !in t.visited && !(a == u && b == w)
      ensures Check(b) in t.tokens
    {
      DepsDowns(c.es, a, b);
      var m :| 0 <= m < |s.tokens| && s.tokens[m] == Check(b);
      assert t.tokens[m] == Check(b);
    }
  }

  lemma HeldAfter(c: Config, s: State, h: nat, u: Vertex, w: Vertex, k: nat, kids: seq<Vertex>) returns (g: nat)
    requires Held(c, s, h, u, w) && k < |s.tokens| && k != h && Lists(kids, Downs(c.es, s.tokens[k].v))
    ensures var v, ts := s.tokens[k].v, WithoutToken(s, k, kids);
            && g < |ts| && ts[g] == Mark(w) && (forall m :: 0 <= m < |ts| && m != g ==> ts[m].Check?)
            && (forall a, b ::
                  a in s.visited + {v} && b in Downs(c.es, a) && b !in s.visited + {v} && !(a == u && b == w) ==>
                  Check(b) in ts)
  {
    var v, ts := s.tokens[k].v, WithoutToken(s, k, kids);
    var rest := Dropped(s.tokens, k);
    assert ts == rest + Spawn(kids);
    g := if h < k then h else h - 1;
    assert forall m :: 0 <= m < |rest| ==> ts[m] == s.tokens[if m < k then m else m + 1];
    forall a, b | a in s.visited + {v} && b in Downs(c.es, a) && b !in s.visited + {v} && !(a == u && b == w)
      ensures Check(b) in ts
    {
      if a == v {
        var i :| 0 <= i < |kids| && kids[i] == b;
        assert ts[|rest| + i] == Spawn(kids)[i];
      } else {
        var m :| 0 <= m < |s.tokens| && s.tokens[m] == Check(b);
        assert ts[if m < k then m else m - 1] == Check(b);
      }
    }
  }

  lemma TakeHeld(c: Config, s: State, h: nat, u: Vertex, w: Vertex) returns (acts: seq<Action>, t: State, g: nat)
    requires !c.atomic && Held(c, s, h, u, w) && |s.tokens| > 1
    ensures Steps(c, s, acts, t) && acts != [] && Held(c, t, g, u, w)
  {
    var k := if h == 0 then 1 else 0;
    var v := s.tokens[k].v;
    var kids := SomeList(Downs(c.es, v));
    g := HeldAfter(c, s, h, u, w, k, kids);
    var m := Next(c, s, Look(k, kids));
    StepOne(c, s, Look(k, kids));
    if v in s.visited {
      assert s.visited + {v} == s.visited;
      acts, t := [Look(k, kids)], m;
    } else {
      t := Next(c, m, Visit(k, kids));
      StepOne(c, m, Visit(k, kids));
      StepsConcat(c, s, [Look(k, kids)], m, [Visit(k, kids)], t);
      acts := [Look(k, kids)] + [Visit(k, kids)];
      assert WithoutToken(m, k, kids) == WithoutToken(s, k, kids);
      VisitAdds(c, s.visited, s.workers, v);
    }
  }

  lemma {:induction false} TakeAllHeld(c: Config, s: State, h: nat, u: Vertex, w: Vertex)
    returns (acts: seq<Action>, t: State)
    requires WellFormed(c) && Acyclic(c.es) && !c.atomic && Inv(c, s) && Held(c, s, h, u, w)
    ensures Steps(c, s, acts, t) && Held(c, t, 0, u, w) && t.tokens == [Mark(w)] && Inv(c, t)
    decreases Measure(c, s)
  {
    hide Acyclic, Inv;
    if |s.tokens| == 1 {
      acts, t := [], s;
      assert s.tokens == [Mark(w)];
    } else {
      var some, m, g := TakeHeld(c, s, h, u, w);
      RunsAreFinite(c, s, some, m);
      InvSteps(c, s, some, m);
      var more;
      more, t := TakeAllHeld(c, m, g, u, w);
      StepsConcat(c, s, some, m, more, t);
      acts := some + more;
    }
  }

  /** The other parent of w keeps every vertex in reach when u -> w is left out. */
  lemma {:induction false} ReachWithout(es: Edges, from: Vertex, u: Vertex, p: Vertex, w: Vertex, x: Vertex)
    requires Acyclic(es) && Reaches(es, from, x) && p != u && Edge(p, w) in es && Reaches(es, from, p)
    ensures Reaches(es - {Edge(u, w)}, from, x)
    decreases Ancestry(es, x)
  {
    if x == from {
      ReachesSelf(es - {Edge(u, w)}, from);
    } else {
      var y := p;
      if x != w { y := ReachesParent(es, from, x); }
      ReachShrinks(es, y, x);
      ReachWithout(es, from, u, p, w, y);
      ReachesEdge(es - {Edge(u, w)}, from, y, x);
    }
  }

  lemma {:induction false} HeldDownTo(c: Config, s: State, u: Vertex, w: Vertex, a: Vertex, q: seq<Vertex>, b: Vertex)
    requires Held(c, s, 0, u, w) && s.tokens == [Mark(w)] && a in s.visited && Walk(c.es - {Edge(u, w)}, a, q, b)
    ensures b in s.visited
    decreases |q|
  {
    if q != [] {
      DepsDowns(c.es, a, q[0]);
      assert Check(q[0]) !in s.tokens;
      HeldDownTo(c, s, u, w, q[0], q[1..], b);
    }
  }

  lemma HeldVisitsAll(c: Config, s: State, u: Vertex, p: Vertex, w: Vertex)
    requires WellFormed(c) && Acyclic(c.es) && Rooted(c.vs, c.es, c.from) && WorkersOK(c, s.workers)
    requires Held(c, s, 0, u, w) && s.tokens == [Mark(w)] && p != u && Edge(p, w) in c.es
    ensures s.visited == c.vs
  {
    forall v | v in c.vs
      ensures v in s.visited
    {
      assert Edge(p, w).from in c.vs;
      ReachWithout(c.es, c.from, u, p, w, v);
      var q :| Walk(c.es - {Edge(u, w)}, c.from, q, v);
      HeldDownTo(c, s, u, w, c.from, q, v);
    }
    forall v | v in s.visited
      ensures v in c.vs
    {
      var i := FindWorker(s.visited, s.workers, v);
      assert WorkerOK(c, s.workers[i]);
    }
  }

  // ----- a token that is not looked at changes nothing -----

  lemma AsideStep(c: Config, s: State, a: Action, ts: seq<Token>)
    requires s.tokens == [] && !s.main.Idle? && Enabled(c, s, a)
    ensures Enabled(c, s.(tokens := ts), a) && Next(c, s.(tokens := ts), a) == Next(c, s, a).(tokens := ts)
    ensures Next(c, s, a).tokens == [] && !Next(c, s, a).main.Idle?
  {}

  lemma {:induction false} Aside(c: Config, s: State, acts: seq<Action>, t: State, ts: seq<Token>)
    requires s.tokens == [] && !s.main.Idle? && Steps(c, s, acts, t)
    ensures Steps(c, s.(tokens := ts), acts, t.(tokens := ts))
    decreases |acts|
  {
    hide Enabled, Next;
    if acts != [] {
      AsideStep(c, s, acts[0], ts);
      Aside(c, Next(c, s, acts[0]), acts[1..], t, ts);
    }
  }

  lemma HeldIsWithin(c: Config, s: State, u: Vertex, w: Vertex, within: set<Vertex>)
    requires Held(c, s, 0, u, w) && s.tokens == [Mark(w)] && s.visited == c.vs
    ensures Within(c, within, {}, s.(tokens := []))
  {
    forall i | 0 <= i < |s.workers|
      ensures s.workers[i].phase == PhaseWithin(c, within, {}, s.workers[i].v)
    {
      assert s.workers[i] == NewWorker(c, s.workers[i].v);
      assert Deps(c.es, s.workers[i].v) - {} == Deps(c.es, s.workers[i].v);
    }
  }

  /** The start of the race: all proper ancestors of w have run and passed on their values among
      themselves, and a second traversal is about to visit w. */
  lemma RaceReady(c: Config, w: Vertex, p: Vertex, q: Vertex) returns (acts: seq<Action>, t: State)
    requires WellFormed(c) && Acyclic(c.es) && Rooted(c.vs, c.es, c.from) && !c.atomic
    requires Edge(p, w) in c.es && Edge(q, w) in c.es && p != q
    ensures Steps(c, Init, acts, t.(tokens := [Mark(w)])) && Inv(c, t.(tokens := [Mark(w)])) && t.visited == c.vs
    ensures Within(c, Ancestry(c.es, w) - {w}, Ancestry(c.es, w) - {w}, t)
  {
    hide Acyclic, Rooted, Within, AncestorClosed;
    var m, u;
    acts, m, u := HoldSomewhere(c, w, p);
    assert Edge(p, w).to in c.vs;
    var some, n := TakeAllHeld(c, m, HeldAt(c, m, u, w), u, w);
    StepsConcat(c, Init, acts, m, some, n);
    HeldVisitsAll(c, n, u, if u == p then q else p, w);
    AncestryClosed(c, w);
    var up := Ancestry(c.es, w) - {w};
    HeldIsWithin(c, n, u, w, up);
    NothingClosed(c);
    var more;
    more, t := RunWithin(c, up, {}, up, n.(tokens := []));
    Aside(c, n.(tokens := []), more, t, [Mark(w)]);
    assert n == n.(tokens := []).(tokens := [Mark(w)]);
    InvSteps(c, n, more, t.(tokens := [Mark(w)]));
    StepsConcat(c, Init, acts + some, n, more, t.(tokens := [Mark(w)]));
    acts := acts + some + more;
    VisitedStays(c, n, more, t.(tokens := [Mark(w)]));
  }

  lemma NothingClosed(c: Config)
    ensures AncestorClosed(c, {})
  {}

  ghost function HeldAt(c: Config, s: State, u: Vertex, w: Vertex): nat
    requires exists h: nat :: Held(c, s, h, u, w)
    ensures Held(c, s, HeldAt(c, s, u, w), u, w)
  {
    var h: nat :| Held(c, s, h, u, w);
    h
  }

  lemma HoldSomewhere(c: Config, w: Vertex, p: Vertex) returns (acts: seq<Action>, t: State, u: Vertex)
    requires WellFormed(c) && Acyclic(c.es) && Rooted(c.vs, c.es, c.from) && !c.atomic && Edge(p, w) in c.es
    ensures Steps(c, Init, acts, t) && Inv(c, t) && exists h: nat :: Held(c, t, h, u, w)
  {
    hide Acyclic, Rooted, Inv, OnlyVisited, Held;
    var kids := SomeList(Downs(c.es, c.from));
    InitOK(c);
    var s := Next(c, Init, Begin(kids));
    StepOne(c, Init, Begin(kids));
    InvStep(c, Init, Begin(kids));
    BeginVisits(c, kids);
    FromIsNoChild(c, p, w);
    var m, k := s, 0;
    acts := [Begin(kids)];
    if Check(w) in s.tokens {
      k :| 0 <= k < |s.tokens| && s.tokens[k] == Check(w);
      u := c.from;
    } else {
      var some;
      some, m, k, u := UntilToken(c, s, w);
      StepsConcat(c, Init, acts, s, some, m);
      acts := acts + some;
    }
    var more;
    more, t := HoldOne(c, m, k, u, w);
    InvSteps(c, m, more, t);
    StepsConcat(c, Init, acts, m, more, t);
    acts := acts + more;
  }

  lemma FromIsNoChild(c: Config, p: Vertex, w: Vertex)
    requires WellFormed(c) && Edge(p, w) in c.es
    ensures w != c.from && w in c.vs
  {
    DepsDowns(c.es, p, w);
    assert Edge(p, w).to in c.vs;
  }

  lemma VisitedStep(c: Config, s: State, a: Action)
    requires TokensOK(c, s.tokens) && !s.main.Idle? && s.visited == c.vs && Enabled(c, s, a)
    ensures Next(c, s, a).visited == c.vs && !Next(c, s, a).main.Idle?
  {
    if a.Visit? { assert s.visited + {s.tokens[a.k].v} == s.visited; }
  }

  lemma {:induction false} VisitedStays(c: Config, s: State, acts: seq<Action>, t: State)
    requires WellFormed(c) && Inv(c, s) && !s.main.Idle? && s.visited == c.vs && Steps(c, s, acts, t)
    ensures t.visited == c.vs
    decreases |acts|
  {
    hide WellFormed, Enabled, Next, WorkersOK, GotOnce, OwnerOK, GotWasSent, ClosedOK, MainOK, LogOK, TokensOK;
    if acts != [] {
      VisitedStep(c, s, acts[0]);
      InvStep(c, s, acts[0]);
      VisitedStays(c, Next(c, s, acts[0]), acts[1..], t);
    }
  }

  // ----- the race itself -----

  lemma StillOpen(c: Config, s: State, i: nat, w: Vertex)
    requires Inv(c, s) && i < |s.workers| && s.workers[i].phase.Emit? && w in s.workers[i].phase.todo
    ensures Edge(s.workers[i].v, w) !in s.closed
  {
    assert PhaseOf(s.owner, s.workers, s.workers[i].v) == s.workers[i].phase;
  }

  /** Worker j waits for dep, whose channel is closed, and leaves. */
  lemma WaitInVain(c: Config, acts: seq<Action>, s: State, j: nat, dep: Vertex) returns (more: seq<Action>, t: State)
    requires Steps(c, Init, acts, s) && j < |s.workers| && s.workers[j].phase.Collect? && dep in s.workers[j].phase.todo
    requires Edge(dep, s.workers[j].v) in s.closed
    ensures Steps(c, Init, more, t) && t == s.(workers := s.workers[j := Worker(s.workers[j].v, GaveUp)])
  {
    var some, m := ThenAwait(c, acts, s, j, dep);
    more, t := some + [GiveUp(j)], Next(c, m, GiveUp(j));
    StepsSnoc(c, Init, some, m, GiveUp(j));
    assert t.workers == s.workers[j := Worker(s.workers[j].v, GaveUp)];
  }

  lemma ThenHand(c: Config, acts: seq<Action>, s: State, i: nat, j: nat) returns (more: seq<Action>, t: State)
    requires Steps(c, Init, acts, s) && CanHand(s, i, j)
    ensures Steps(c, Init, more, t) && t == Handed(s, i, j)
  {
    t := Handed(s, i, j);
    HandIt(c, s, i, j);
    StepsConcat(c, Init, acts, s, HandActions(s.workers[i].v, s.workers[j].v, i, j), t);
    more := acts + HandActions(s.workers[i].v, s.workers[j].v, i, j);
  }

  /** The workers of p and q can still send to w, the two workers j and k of w have received nothing. */
  ghost predicate TwoForOne(c: Config, s: State, w: Vertex, i1: nat, i2: nat, j: nat, k: nat) {
    && i1 < |s.workers| && i2 < |s.workers| && j < |s.workers| && k < |s.workers|
    && s.workers[i1].v != s.workers[i2].v && s.workers[i1].v != w && s.workers[i2].v != w && j != k
    && s.workers[i1].phase.Emit? && w in s.workers[i1].phase.todo && Edge(s.workers[i1].v, w) !in s.closed
    && s.workers[i2].phase.Emit? && w in s.workers[i2].phase.todo && Edge(s.workers[i2].v, w) !in s.closed
    && s.workers[j] == NewWorker(c, w) == s.workers[k]
    && s.workers[i1].v in Deps(c.es, w) && s.workers[i2].v in Deps(c.es, w)
    && forall l :: 0 <= l < |s.workers| && s.workers[l].v == w ==> l == j || l == k
  }

  /** Each takes one value, then finds the channel of the other closed. */
  lemma ShareOut(c: Config, acts: seq<Action>, s: State, w: Vertex, i1: nat, i2: nat, j: nat, k: nat)
    returns (more: seq<Action>, t: State)
    requires Steps(c, Init, acts, s) && TwoForOne(c, s, w, i1, i2, j, k)
    ensures Steps(c, Init, more, t) && t == s.(workers := t.workers, closed := t.closed)
    ensures forall l :: 0 <= l < |t.workers| && t.workers[l].v == w ==> t.workers[l].phase.GaveUp?
  {
    hide Steps;
    var p, q := s.workers[i1].v, s.workers[i2].v;
    var acts1, s1 := ThenHand(c, acts, s, i1, j);
    var acts2, s2 := ThenHand(c, acts1, s1, i2, k);
    var acts3, s3 := WaitInVain(c, acts2, s2, j, q);
    more, t := WaitInVain(c, acts3, s3, k, p);
    assert forall l :: 0 <= l < |t.workers| ==> t.workers[l].v == s.workers[l].v;
  }

  lemma SecondVisit(c: Config, w: Vertex, p: Vertex, q: Vertex)
    returns (acts: seq<Action>, t: State, i1: nat, i2: nat, j: nat, k: nat)
    requires WellFormed(c) && Acyclic(c.es) && Rooted(c.vs, c.es, c.from) && !c.atomic
    requires Edge(p, w) in c.es && Edge(q, w) in c.es && p != q
    ensures Steps(c, Init, acts, t) && Inv(c, t) && TwoForOne(c, t, w, i1, i2, j, k)
    ensures t.visited == c.vs && Calm(t) && t.main == Pick(c.vs)
    ensures forall m :: 0 <= m < |t.tokens| ==> t.tokens[m].Check?
  {
    hide Acyclic, Rooted, Within, AncestorClosed, Inv, Steps, Enabled, Next, Lists, Deps, Downs, Ancestry;
    var s;
    acts, s := RaceReady(c, w, p, q);
    var up := Ancestry(c.es, w) - {w};
    FromIsNoChild(c, p, w);
    AncestryClosed(c, w);
    DepsDowns(c.es, p, w);
    DepsDowns(c.es, q, w);
    i1 := WorkerWithin(c, up, s, p);
    i2 := WorkerWithin(c, up, s, q);
    j := WorkerWithin(c, up, s, w);
    WithinAtRest(c, up, s, w, j);
    var kids := SomeList(Downs(c.es, w));
    var m := s.(tokens := [Mark(w)]);
    StillOpen(c, m, i1, w);
    StillOpen(c, m, i2, w);
    t := OneMoreWorker(c, m, w, kids);
    k := |s.workers|;
    StepsSnoc(c, Init, acts, m, Visit(0, kids));
    acts := acts + [Visit(0, kids)];
    InvStep(c, m, Visit(0, kids));
  }

  /** The late visit of w adds a second worker for it. */
  lemma OneMoreWorker(c: Config, s: State, w: Vertex, kids: seq<Vertex>) returns (t: State)
    requires s.tokens == [Mark(w)] && s.visited == c.vs && w in c.vs && !c.atomic && !s.main.Idle?
    requires Lists(kids, Downs(c.es, w))
    ensures Enabled(c, s, Visit(0, kids)) && t == Next(c, s, Visit(0, kids))
    ensures t.workers == s.workers + [NewWorker(c, w)] && t.tokens == Spawn(kids) && t.visited == c.vs
    ensures t.main == s.main && t.closed == s.closed && t.log == s.log && t.cancelled == s.cancelled
  {
    t := Next(c, s, Visit(0, kids));
    assert s.tokens[..0] + s.tokens[1..] + Spawn(kids) == Spawn(kids);
    assert s.visited + {w} == c.vs;
  }

  lemma WithinAtRest(c: Config, up: set<Vertex>, s: State, w: Vertex, j: nat)
    requires Within(c, up, up, s) && j < |s.workers| && s.workers[j].v == w
    ensures s.main == Pick(c.vs) && forall l :: 0 <= l < |s.workers| && s.workers[l].v == w ==> l == j
  {}

  /** Both workers of w are gone, and no traversal will schedule another. */
  ghost predicate Dead(c: Config, s: State, w: Vertex) {
    && w in c.vs && s.visited == c.vs && !s.main.Idle? && Calm(s)
    && (forall m :: 0 <= m < |s.tokens| ==> s.tokens[m].Check?)
    && (forall i :: 0 <= i < |s.workers| && s.workers[i].v == w ==> s.workers[i].phase.GaveUp?)
  }

  lemma DeadTokens(c: Config, s: State, a: Action, w: Vertex)
    requires Dead(c, s, w) && TokensOK(c, s.tokens) && !c.atomic && (a.Look? || a.Visit?) && Enabled(c, s, a)
    ensures Dead(c, Next(c, s, a), w)
  {
    var rest := Dropped(s.tokens, a.k);
    var ts := rest + Spawn(a.kids);
    forall m | 0 <= m < |ts|
      ensures ts[m].Check?
    {
      if m < |rest| { assert ts[m] == s.tokens[if m < a.k then m else m + 1]; }
    }
    assert WithoutToken(s, a.k, a.kids) == ts;
  }

  lemma DeadOther(c: Config, s: State, a: Action, w: Vertex)
    requires Dead(c, s, w) && !a.Look? && !a.Visit? && Enabled(c, s, a) && Calm(Next(c, s, a))
    ensures Dead(c, Next(c, s, a), w)
  {}

  lemma DeadNotReturned(c: Config, s: State, w: Vertex)
    requires Inv(c, s) && Dead(c, s, w)
    ensures !s.main.Returned?
  {
    hide TokensOK, BegunOK, WorkersOK, GotOnce, GotWasSent, ClosedOK;
    assert PhaseOf(s.owner, s.workers, w).GaveUp?;
    assert forall v :: Failed(s.owner, s.workers, v) ==> Ended(v, false) in s.log;
  }

  lemma {:induction false} DeadToEnd(c: Config, s: State, w: Vertex) returns (acts: seq<Action>, t: State)
    requires WellFormed(c) && Acyclic(c.es) && !c.atomic && Inv(c, s) && Dead(c, s, w)
    ensures Steps(c, s, acts, t) && Stuck(c, t) && !t.main.Returned?
    decreases Measure(c, s)
  {
    hide Acyclic, Inv;
    if Stuck(c, s) {
      DeadNotReturned(c, s, w);
      acts, t := [], s;
    } else {
      hide Dead, Enabled, Next, Stuck, Calm;
      assert Calm(s) by { DeadCalm(c, s, w); }
      var a := CalmAction(c, s);
      StepWeighs(c, s, a);
      InvStep(c, s, a);
      if a.Look? || a.Visit? {
        assert TokensOK(c, s.tokens) by { TokensOf(c, s); }
        DeadTokens(c, s, a, w);
      } else {
        DeadOther(c, s, a, w);
      }
      var rest;
      rest, t := DeadToEnd(c, Next(c, s, a), w);
      acts := [a] + rest;
      assert acts[1..] == rest;
    }
  }

  lemma DeadCalm(c: Config, s: State, w: Vertex)
    requires Dead(c, s, w)
    ensures Calm(s)
  {}

  lemma TokensOf(c: Config, s: State)
    requires Inv(c, s)
    ensures TokensOK(c, s.tokens)
  {}

  /** Wherever a vertex has two dependencies, the race can end with two workers for it of which neither
      ever runs its function. */
  lemma FanInDeadlocks(c: Config, w: Vertex)
    requires WellFormed(c) && Acyclic(c.es) && Rooted(c.vs, c.es, c.from) && !c.atomic && FanIn(c.es, w)
    ensures CanDeadlock(c)
  {
    hide Acyclic, Rooted, Inv, Steps, Stuck, TwoForOne, Calm;
    var p, q :| p != q && Edge(p, w) in c.es && Edge(q, w) in c.es;
    var acts, s, i1, i2, j, k := SecondVisit(c, w, p, q);
    var more, t := ShareOut(c, acts, s, w, i1, i2, j, k);
    FromIsNoChild(c, p, w);
    InitOK(c);
    InvSteps(c, Init, more, t);
    assert Calm(t) by { SameCalm(s, t); }
    assert Dead(c, t, w);
    var rest, e := DeadToEnd(c, t, w);
    StepsConcat(c, Init, more, t, rest, e);
    assert Reachable(c, e);
  }

  lemma SameCalm(s: State, t: State)
    requires Calm(s) && t == s.(workers := t.workers, closed := t.closed)
    ensures Calm(t)
  {}

  /** With the check as the code has it, the executor is free of deadlock exactly on trees. */
  lemma RacyDeadlockFreeIff(c: Config)
    requires WellFormed(c) && Acyclic(c.es) && Rooted(c.vs, c.es, c.from) && !c.atomic
    ensures !CanDeadlock(c) <==> NoFanIn(c.es)
  {
    hide Acyclic, Rooted, Stuck, Reachable;
    if NoFanIn(c.es) {
      forall s | Reachable(c, s) && Stuck(c, s)
        ensures s.main.Returned?
      {
        TreeReturns(c, s);
      }
    } else {
      var w :| FanIn(c.es, w);
      FanInDeadlocks(c, w);
    }
  }

  /** On a rooted tree, every run of the executor as it stands has a bound on its length and ends only
      after the main walk has returned. */
  lemma EveryTreeRunCompletes(c: Config, acts: seq<Action>, s: State)
    requires WellFormed(c) && !c.atomic && Acyclic(c.es) && Rooted(c.vs, c.es, c.from) && NoFanIn(c.es)
    requires Steps(c, Init, acts, s)
    ensures |acts| <= Measure(c, Init)
    ensures Stuck(c, s) ==> s.main.Returned?
    ensures exists more, t :: Steps(c, s, more, t) && t.main.Returned?
  {
    hide Stuck, Acyclic, Rooted, Measure, NoFanIn, Inv, WellFormed;
    InitOK(c);
    RunsAreFinite(c, Init, acts, s);
    assert Reachable(c, s);
    if Stuck(c, s) { TreeReturns(c, s); }
    InvSteps(c, Init, acts, s);
    var more, t := RunToEnd(c, s);
    StepsConcat(c, Init, acts, s, more, t);
    assert Reachable(c, t);
    TreeReturns(c, t);
  }

  /** So the race alone makes the difference on every reduced graph with one fork and some fan-in. */
  lemma RaceMatters(vs: set<Vertex>, es: Edges, root: Vertex, w: Vertex)
    requires WellFormed(Config(vs, es, root, true)) && Acyclic(es) && Rooted(vs, es, root)
    requires Irredundant(es) && AtMostOneFork(es) && FanIn(es, w)
    ensures !CanDeadlock(Config(vs, es, root, true)) && CanDeadlock(Config(vs, es, root, false))
  {
    hide Acyclic, Rooted, Irredundant, AtMostOneFork, CanDeadlock;
    DeadlockFreeIff(Config(vs, es, root, true));
    FanInDeadlocks(Config(vs, es, root, false), w);
  }
}
