/** How the executor sets up its channels: one for every edge, held by both ends, and one for every
    vertex, held by the vertex and the main walk. Executor can therefore name a channel by its edge,
    or by its vertex. */
module ExecInit {
  import opened Graphs
  import opened DagStore
  import opened Wrappers

  /** Channels are told apart by a number that grows with every make. */
  type Chan = nat

  /** What a context holds: a channel per dependent, to send on, one per dependency, to receive from, and
      the channel to the main walk. */
  datatype View = View(doneChs: map<Vertex, Chan>, depChs: map<Vertex, Chan>, deps: set<Vertex>, doneFnCh: Option<Chan>)

  type Views = map<Vertex, View>

  const Empty: View := View(map[], map[], {}, None)

  // ----- what the channel maps amount to -----

  /** The channel on which u sends to w, and the one on which w receives from u. */
  ghost function SendCh(m: Views, u: Vertex, w: Vertex): Option<Chan> {
    if u in m && w in m[u].doneChs then Some(m[u].doneChs[w]) else None
  }

  ghost function RecvCh(m: Views, w: Vertex, u: Vertex): Option<Chan> {
    if w in m && u in m[w].depChs then Some(m[w].depChs[u]) else None
  }

  ghost function MainCh(m: Views, v: Vertex): Option<Chan> {
    if v in m then m[v].doneFnCh else None
  }

  /** Exactly the edges have a channel, both ends hold the same one, and no two edges share one. */
  ghost predicate Matrix(m: Views, es: Edges, next: nat) {
    && (forall u, w :: SendCh(m, u, w) == RecvCh(m, w, u))
    && (forall u, w :: SendCh(m, u, w).Some? <==> Edge(u, w) in es)
    && (forall u, w :: SendCh(m, u, w).Some? ==> SendCh(m, u, w).value < next)
    && (forall u, w, x, y :: SendCh(m, u, w).Some? && SendCh(m, u, w) == SendCh(m, x, y) ==> u == x && w == y)
  }

  /** Exactly the vertices vs have a channel to the main walk, which knows it and which nothing else
      uses. */
  ghost predicate DoneMatrix(m: Views, done: map<Vertex, Chan>, vs: set<Vertex>, next: nat) {
    && done.Keys == vs
    && (forall v :: v in vs ==> MainCh(m, v) == Some(done[v]) && done[v] < next)
    && (forall v :: MainCh(m, v).Some? ==> v in vs)
    && (forall u, v :: u in vs && v in vs && done[u] == done[v] ==> u == v)
    && (forall v, x, y :: v in vs ==> Some(done[v]) != SendCh(m, x, y))
  }

  ghost predicate Wired(m: Views, es: Edges, done: map<Vertex, Chan>, vs: set<Vertex>, next: nat) {
    Matrix(m, es, next) && DoneMatrix(m, done, vs, next)
  }

  /** ch becomes the channel of an edge: the source sends on it, then the target receives from it. */
  ghost function Linked(m: Views, u: Vertex, w: Vertex, ch: Chan): Views
    requires u in m && w in m
  {
    var sent := m[u := m[u].(doneChs := m[u].doneChs[w := ch])];
    sent[w := sent[w].(depChs := sent[w].depChs[u := ch])]
  }

  ghost function WithMain(m: Views, v: Vertex, deps: set<Vertex>, ch: Chan): Views
    requires v in m
  {
    m[v := m[v].(deps := deps, doneFnCh := Some(ch))]
  }

  lemma LinkedChans(m: Views, u: Vertex, w: Vertex, ch: Chan)
    requires u in m && w in m
    ensures forall x, y :: SendCh(Linked(m, u, w, ch), x, y) == if x == u && y == w then Some(ch) else SendCh(m, x, y)
    ensures forall x, y :: RecvCh(Linked(m, u, w, ch), y, x) == if x == u && y == w then Some(ch) else RecvCh(m, y, x)
    ensures forall x :: MainCh(Linked(m, u, w, ch), x) == MainCh(m, x)
  {}

  lemma LinkKeeps(m: Views, es: Edges, done: map<Vertex, Chan>, vs: set<Vertex>, next: nat, u: Vertex, w: Vertex)
    requires Wired(m, es, done, vs, next) && u in m && w in m && Edge(u, w) !in es
    ensures Wired(Linked(m, u, w, next), es + {Edge(u, w)}, done, vs, next + 1)
  {
    hide SendCh, RecvCh, MainCh, Linked;
    LinkedChans(m, u, w, next);
  }

  lemma WithMainChans(m: Views, v: Vertex, deps: set<Vertex>, ch: Chan)
    requires v in m
    ensures forall x, y :: SendCh(WithMain(m, v, deps, ch), x, y) == SendCh(m, x, y)
    ensures forall x, y :: RecvCh(WithMain(m, v, deps, ch), y, x) == RecvCh(m, y, x)
    ensures forall x :: MainCh(WithMain(m, v, deps, ch), x) == if x == v then Some(ch) else MainCh(m, x)
  {}

  lemma MainKeeps(m: Views, es: Edges, done: map<Vertex, Chan>, vs: set<Vertex>, next: nat, v: Vertex,
                  deps: set<Vertex>)
    requires Wired(m, es, done, vs, next) && v in m && v !in vs
    ensures Wired(WithMain(m, v, deps, next), es, done[v := next], vs + {v}, next + 1)
  {
    hide SendCh, RecvCh, MainCh, WithMain;
    WithMainChans(m, v, deps, next);
  }

  /** The edges into vs. */
  ghost function Into(es: Edges, vs: set<Vertex>): Edges {
    set e | e in es && e.to in vs
  }

  // ----- the code -----

  class ExecContext {
    var doneChs: map<Vertex, Chan>
    var depChs: map<Vertex, Chan>
    var deps: set<Vertex>
    var doneFnCh: Option<Chan>

    constructor ()
      ensures AsView() == Empty
    {
      doneChs, depChs, deps, doneFnCh := map[], map[], {}, None;
    }

    ghost function AsView(): View
      reads this
    {
      View(doneChs, depChs, deps, doneFnCh)
    }

    method AddDoneCh(n: Vertex, c: Chan)
      modifies this`doneChs
      ensures doneChs == old(doneChs)[n := c]
    {
      doneChs := doneChs[n := c];
    }

    method AddDepCh(n: Vertex, c: Chan)
      modifies this`depChs
      ensures depChs == old(depChs)[n := c]
    {
      depChs := depChs[n := c];
    }
  }

  class Exec {
    var execMap: map<Vertex, ExecContext>
    var fnDoneMap: map<Vertex, Chan>
    var made: nat

    constructor ()
      ensures execMap == map[] && fnDoneMap == map[] && made == 0
    {
      execMap, fnDoneMap, made := map[], map[], 0;
    }

    ghost predicate Distinct()
      reads this`execMap
    {
      forall u, v :: u in execMap && v in execMap && execMap[u] == execMap[v] ==> u == v
    }

    ghost function AsViews(): Views
      reads this`execMap, execMap.Values
    {
      map v | v in execMap :: execMap[v].AsView()
    }

    method MakeChan() returns (c: Chan)
      modifies this`made
      ensures c == old(made) && made == old(made) + 1
    {
      c := made;
      made := made + 1;
    }

    /** A context for every vertex, with empty channel maps. */
    method InitContexts(vertices: set<Vertex>)
      modifies this`execMap
      ensures Distinct() && AsViews() == map v | v in vertices :: Empty
      ensures forall v :: v in execMap ==> fresh(execMap[v])
    {
      execMap := map[];
      var todo := vertices;
      while todo != {}
        invariant todo <= vertices && execMap.Keys == vertices - todo
        invariant forall v :: v in execMap ==> fresh(execMap[v]) && execMap[v].AsView() == Empty
        invariant Distinct()
        decreases todo
      {
        var v :| v in todo;
        todo := todo - {v};
        var c := new ExecContext();
        execMap := execMap[v := c];
      }
    }

    /** The view of the one context that changed is the only one that did. */
    twostate lemma OneChanged(v: Vertex)
      requires old(Distinct()) && v in execMap && execMap == old(execMap)
      requires forall x :: x in execMap && x != v ==> execMap[x].AsView() == old(execMap[x].AsView())
      ensures AsViews() == old(AsViews())[v := execMap[v].AsView()]
    {}

    method AddDone(dep: Vertex, depCtx: ExecContext, v: Vertex, c: Chan)
      requires Distinct() && dep in execMap && execMap[dep] == depCtx
      modifies depCtx`doneChs
      ensures AsViews() == old(AsViews())[dep := old(AsViews())[dep].(doneChs := old(AsViews())[dep].doneChs[v := c])]
    {
      depCtx.AddDoneCh(v, c);
      OneChanged(dep);
    }

    method AddDep(v: Vertex, wCtx: ExecContext, dep: Vertex, c: Chan)
      requires Distinct() && v in execMap && execMap[v] == wCtx
      modifies wCtx`depChs
      ensures AsViews() == old(AsViews())[v := old(AsViews())[v].(depChs := old(AsViews())[v].depChs[dep := c])]
    {
      wCtx.AddDepCh(dep, c);
      OneChanged(v);
    }

    /** A new channel for the edge from dep to v. */
    method Link(dep: Vertex, depCtx: ExecContext, v: Vertex, wCtx: ExecContext)
      requires Distinct() && dep in execMap && execMap[dep] == depCtx && v in execMap && execMap[v] == wCtx
      modifies this`made, depCtx`doneChs, wCtx`depChs
      ensures AsViews() == Linked(old(AsViews()), dep, v, old(made)) && made == old(made) + 1
    {
      hide AsViews;
      assert dep in AsViews() && v in AsViews() by { Keys(); }
      var depCh := MakeChan();
      AddDone(dep, depCtx, v, depCh);
      AddDep(v, wCtx, dep, depCh);
    }

    lemma Keys()
      ensures AsViews().Keys == execMap.Keys
    {}

    /** The dependencies of v and its channel to the main walk. */
    method LinkMain(v: Vertex, wCtx: ExecContext, ups: set<Vertex>)
      requires Distinct() && v in execMap && execMap[v] == wCtx
      modifies this`fnDoneMap, this`made, wCtx`deps, wCtx`doneFnCh
      ensures AsViews() == WithMain(old(AsViews()), v, ups, old(made))
      ensures made == old(made) + 1 && fnDoneMap == old(fnDoneMap)[v := old(made)]
    {
      wCtx.deps := ups;
      var doneFnCh := MakeChan();
      wCtx.doneFnCh := Some(doneFnCh);
      fnDoneMap := fnDoneMap[v := doneFnCh];
      OneChanged(v);
    }

    /** The channels of one vertex: those of its dependencies, then the one to the main walk. It fails,
        as the code would on a missing context, when a dependency is not a vertex. */
    method InitVertex(v: Vertex, wCtx: ExecContext, ups: set<Vertex>, ghost es: Edges, ghost vs: set<Vertex>)
      returns (r: Outcome)
      requires Distinct() && v in execMap && execMap[v] == wCtx && v !in vs
      requires Wired(AsViews(), es, fnDoneMap, vs, made) && forall u :: Edge(u, v) !in es
      modifies this`fnDoneMap, this`made, execMap.Values
      ensures r.Pass? <==> ups <= execMap.Keys
      ensures r.Pass? ==> Wired(AsViews(), es + Star(ups, v), fnDoneMap, vs + {v}, made)
    {
      hide Wired, AsViews;
      var todo := ups;
      ghost var now := es;
      while todo != {}
        invariant todo <= ups && ups - todo <= execMap.Keys
        invariant now == es + Star(ups - todo, v)
        invariant Wired(AsViews(), now, fnDoneMap, vs, made)
        decreases todo
      {
        var dep :| dep in todo;
        todo := todo - {dep};
        if dep !in execMap {
          return Fail("no context for " + dep);
        }
        Keys();
        LinkKeeps(AsViews(), now, fnDoneMap, vs, made, dep, v);
        Link(dep, execMap[dep], v, wCtx);
        now := now + {Edge(dep, v)};
      }
      Keys();
      MainKeeps(AsViews(), now, fnDoneMap, vs, made, v, ups);
      LinkMain(v, wCtx, ups);
      assert ups - todo == ups;
      return Pass;
    }

    /** The channels of the vertices in todo, those of done being set up; es are the edges of d. */
    method InitChannels<T>(d: Dag<T>, ghost es: Edges, ghost vs: set<Vertex>) returns (r: Outcome)
      requires Distinct() && execMap.Keys == vs && Wired(AsViews(), {}, fnDoneMap, {}, made)
      requires forall u, v :: u in d.Up(v) <==> Edge(u, v) in es
      modifies this`fnDoneMap, this`made, execMap.Values
      ensures r.Pass? <==> forall e :: e in Into(es, vs) ==> e.from in vs
      ensures r.Pass? ==> Wired(AsViews(), Into(es, vs), fnDoneMap, vs, made)
    {
      hide Wired, AsViews, Distinct, Into, Star;
      ghost var done: set<Vertex> := {};
      IntoNone(es);
      var todo := execMap.Keys;
      while todo != {}
        invariant todo !! done && todo + done == vs
        invariant Wired(AsViews(), Into(es, done), fnDoneMap, done, made)
        invariant forall e :: e in Into(es, done) ==> e.from in vs
        decreases todo
      {
        var v :| v in todo;
        todo := todo - {v};
        var ups := d.GetUpVertexes(v);
        IntoInsert(es, done, v, ups);
        r := InitVertex(v, execMap[v], ups, Into(es, done), done);
        if r.Fail? {
          MissingUp(es, vs, v, ups);
          return;
        }
        StarSources(ups, v, vs);
        done := done + {v};
      }
      return Pass;
    }

    /** After init the channel matrix is that of the graph. */
    method Init<T>(d: Dag<T>) returns (r: Outcome)
      requires d.Valid() && made == 0
      modifies this
      ensures r.Pass? <==> forall e :: e in Into(d.Edges(), d.vertices.Keys) ==> e.from in d.vertices
      ensures r.Pass? ==> execMap.Keys == d.vertices.Keys == fnDoneMap.Keys
      ensures r.Pass? ==> Wired(AsViews(), Into(d.Edges(), d.vertices.Keys), fnDoneMap, d.vertices.Keys, made)
    {
      var vertices := d.GetVertices();
      InitContexts(vertices.Keys);
      fnDoneMap := map[];
      Keys();
      EmptyWired(vertices.Keys, made);
      r := InitChannels(d, d.Edges(), vertices.Keys);
    }
  }

  lemma EmptyWired(vs: set<Vertex>, next: nat)
    ensures Wired(map v | v in vs :: Empty, {}, map[], {}, next)
  {}

  /** The edges from ups to v. */
  ghost function Star(ups: set<Vertex>, v: Vertex): Edges {
    set u | u in ups :: Edge(u, v)
  }

  lemma MissingUp(es: Edges, vs: set<Vertex>, v: Vertex, ups: set<Vertex>)
    requires (forall u :: u in ups ==> Edge(u, v) in es) && v in vs && !(ups <= vs)
    ensures exists e :: e in Into(es, vs) && e.from !in vs
  {
    var u :| u in ups && u !in vs;
    assert Edge(u, v) in Into(es, vs);
  }

  lemma StarSources(ups: set<Vertex>, v: Vertex, vs: set<Vertex>)
    requires ups <= vs
    ensures forall e :: e in Star(ups, v) ==> e.from in vs
  {}

  lemma IntoNone(es: Edges)
    ensures Into(es, {}) == {}
  {}

  lemma IntoInsert(es: Edges, vs: set<Vertex>, v: Vertex, ups: set<Vertex>)
    requires forall u :: u in ups <==> Edge(u, v) in es
    ensures Into(es, vs + {v}) == Into(es, vs) + Star(ups, v)
    ensures v !in vs ==> forall u :: Edge(u, v) !in Into(es, vs)
  {
    forall e | e in es && e.to == v
      ensures e in Star(ups, v)
    {
      assert Edge(e.from, v) == e;
    }
  }
}
