/** The dag store: vertices with a payload, two mirrored edge maps, and the transitive reduction
    that deletes edges while it walks. */
module DagStore {
  import opened DepthFirst
  import opened Graphs
  import opened Reduction
  import opened Wrappers

  class Dag<T> {
    var vertices: map<Vertex, T>
    var downEdges: map<Vertex, set<Vertex>>
    var upEdges: map<Vertex, set<Vertex>>
    var vertexDepth: DepthMap

    constructor ()
      ensures Valid() && vertices == map[] && Edges() == {}
    {
      vertices := map[];
      downEdges := map[];
      upEdges := map[];
      vertexDepth := map[];
    }

    ghost function Down(v: Vertex): set<Vertex>
      reads this`downEdges
    {
      if v in downEdges then downEdges[v] else {}
    }

    ghost function Up(v: Vertex): set<Vertex>
      reads this`upEdges
    {
      if v in upEdges then upEdges[v] else {}
    }

    /** The two edge maps are converses of each other. */
    ghost predicate Valid()
      reads this`downEdges, this`upEdges
    {
      forall a, b :: b in Down(a) <==> a in Up(b)
    }

    /** The graph that the down map stores. */
    ghost function Edges(): (es: Edges)
      reads this`downEdges
      ensures forall a, b :: Edge(a, b) in es <==> b in Down(a)
    {
      set a, b | a in downEdges && b in downEdges[a] :: Edge(a, b)
    }

    lemma DownIsDowns(v: Vertex)
      ensures Down(v) == Downs(Edges(), v)
    {
      forall x
        ensures x in Down(v) <==> x in Downs(Edges(), v)
      {
        DepsDowns(Edges(), v, x);
      }
    }

    lemma UpIsDeps(v: Vertex)
      requires Valid()
      ensures Up(v) == Deps(Edges(), v)
    {
      forall x
        ensures x in Up(v) <==> x in Deps(Edges(), v)
      {
        DepsDowns(Edges(), x, v);
      }
    }

    // ----- vertices -----

    method AddVertex(s: Vertex, v: T) returns (r: Outcome)
      modifies this`vertices
      ensures r.Fail? <==> s in old(vertices)
      ensures vertices == if r.Pass? then old(vertices)[s := v] else old(vertices)
    {
      if s in vertices {
        return Fail("duplicate vertex entry: " + s);
      }
      vertices := vertices[s := v];
      return Pass;
    }

    method GetVertices() returns (vs: map<Vertex, T>)
      ensures vs == vertices
    {
      vs := vertices;
    }

    method AddDownEdge(from: Vertex, to: Vertex)
      modifies this`downEdges
      ensures Edges() == old(Edges()) + {Edge(from, to)}
      ensures forall v :: Down(v) == old(Down(v)) + if v == from then {to} else {}
    {
      if from !in downEdges {
        downEdges := downEdges[from := {}];
      }
      if to in downEdges[from] {
        return;
      }
      downEdges := downEdges[from := downEdges[from] + {to}];
    }

    method AddUpEdge(from: Vertex, to: Vertex)
      modifies this`upEdges
      ensures forall v :: Up(v) == old(Up(v)) + if v == from then {to} else {}
    {
      if from !in upEdges {
        upEdges := upEdges[from := {}];
      }
      if to in upEdges[from] {
        return;
      }
      upEdges := upEdges[from := upEdges[from] + {to}];
    }

    method DeleteDownEdge(from: Vertex, to: Vertex)
      modifies this`downEdges
      ensures Edges() == old(Edges()) - {Edge(from, to)}
      ensures forall v :: Down(v) == old(Down(v)) - if v == from then {to} else {}
    {
      if from in downEdges {
        if to in downEdges[from] {
          downEdges := downEdges[from := downEdges[from] - {to}];
        }
      }
    }

    method DeleteUpEdge(from: Vertex, to: Vertex)
      modifies this`upEdges
      ensures forall v :: Up(v) == old(Up(v)) - if v == from then {to} else {}
    {
      if from in upEdges {
        if to in upEdges[from] {
          upEdges := upEdges[from := upEdges[from] - {to}];
        }
      }
    }

    method Connect(from: Vertex, to: Vertex)
      requires Valid()
      modifies this`downEdges, this`upEdges
      ensures Valid() && Edges() == old(Edges()) + {Edge(from, to)}
    {
      AddDownEdge(from, to);
      AddUpEdge(to, from);
    }

    method Disconnect(from: Vertex, to: Vertex)
      requires Valid()
      modifies this`downEdges, this`upEdges
      ensures Valid() && Edges() == old(Edges()) - {Edge(from, to)}
    {
      DeleteDownEdge(from, to);
      DeleteUpEdge(to, from);
    }

    /** The targets of the edges from a vertex. */
    method GetDownVertexes(from: Vertex) returns (r: set<Vertex>)
      ensures r == Down(from) == Downs(Edges(), from)
    {
      DownIsDowns(from);
      r := if from in downEdges then downEdges[from] else {};
    }

    /** The sources of the edges into a vertex, read off the other map. */
    method GetUpVertexes(from: Vertex) returns (r: set<Vertex>)
      ensures r == Up(from) && (Valid() ==> r == Deps(Edges(), from))
    {
      if Valid() { UpIsDeps(from); }
      r := if from in upEdges then upEdges[from] else {};
    }

    // ----- transitive reduction -----

    method InitVertexDepthMap()
      modifies this`vertexDepth
      ensures vertexDepth == map[]
    {
      vertexDepth := map[];
    }

    method AddVertexDepth(n: Vertex, depth: nat)
      modifies this`vertexDepth
      ensures vertexDepth == old(vertexDepth)[n := depth]
    {
      vertexDepth := vertexDepth[n := depth];
    }

    method GetVertexDepth(n: Vertex) returns (depth: nat)
      ensures depth == if n in vertexDepth then vertexDepth[n] else 0
    {
      depth := if n in vertexDepth then vertexDepth[n] else 0;
    }

    /** The greatest recorded depth among the parents of from, 0 when none is recorded. */
    method GetBestVertexDepth(from: Vertex) returns (best: nat)
      ensures forall u :: u in Up(from) && u in vertexDepth ==> vertexDepth[u] <= best
      ensures best == 0 || exists u :: u in Up(from) && u in vertexDepth && vertexDepth[u] == best
    {
      best := 0;
      var ups := GetUpVertexes(from);
      var todo := ups;
      while todo != {}
        invariant todo <= ups
        invariant forall u :: u in ups - todo && u in vertexDepth ==> vertexDepth[u] <= best
        invariant best == 0 || exists u :: u in ups && u in vertexDepth && vertexDepth[u] == best
        decreases todo
      {
        var u :| u in todo;
        todo := todo - {u};
        var depth := GetVertexDepth(u);
        if depth > best {
          best := depth;
        }
      }
    }

    /** Deletes the edges into from that come from a recorded parent other than a deepest one. */
    method ProcessTransitiveReduction(from: Vertex)
      requires Valid() && forall x :: x in vertexDepth ==> vertexDepth[x] > 0
      modifies this`downEdges, this`upEdges
      ensures Valid()
      ensures Edges() == old(Edges()) - Shallow(old(Edges()), vertexDepth, from)
    {
      hide Valid, Edges, Shallow;
      ghost var es := Edges();
      var best := GetBestVertexDepth(from);
      var ups := GetUpVertexes(from);
      ghost var cut := Shallow(es, vertexDepth, from);
      ShallowByBest(es, vertexDepth, from, ups, best);
      var todo := ups;
      while todo != {}
        invariant Valid() && todo <= ups
        invariant es - cut <= Edges() <= es
        invariant forall u :: u in ups && u !in todo && Edge(u, from) in cut ==> Edge(u, from) !in Edges()
        decreases todo
      {
        var u :| u in todo;
        todo := todo - {u};
        if best != 0 {
          var depth := GetVertexDepth(u);
          if depth != 0 && depth != best {
            Disconnect(u, from);
          }
        }
      }
    }

    /** The first walk. Its visits form a tree in which each visit goes through the children in some
        order, and every vertex is left with the depth of its last visit. */
    method WalkDepths(from: Vertex, init: bool, depth: nat, ghost es: Edges) returns (ghost t: Tree)
      requires es == Edges() && !CycleBelow(es, from)
      modifies this`vertexDepth
      ensures Explores(es, t) && t.v == from
      ensures vertexDepth == Record(t, depth, if init then map[] else old(vertexDepth))
      decreases Reach(es, from)
    {
      if init {
        InitVertexDepthMap();
      }
      AddVertexDepth(from, depth);
      ghost var base, kids := vertexDepth, [];
      var downs := GetDownVertexes(from);
      ghost var done: set<Vertex> := {};
      var todo := downs;
      while todo != {}
        invariant done !! todo && done + todo == downs
        invariant AllExplore(es, kids) && HeadsOnce(kids, done)
        invariant vertexDepth == RecordAll(kids, depth + 1, base)
        decreases todo
      {
        var w :| w in todo;
        todo := todo - {w};
        DepsDowns(es, from, w);
        StepShrinks(es, from, w);
        ghost var k := WalkDepths(w, false, depth + 1, es);
        RecordMore(kids, k, depth + 1, base);
        HeadsOneMore(kids, done, k);
        OneMoreExplores(es, kids, k);
        kids := kids + [k];
        done := done + {w};
      }
      assert done == downs;
      t := Visit(from, kids);
    }

    /** The second walk. es is the graph when the pass began; from is one of the recorded vertices.
        Every vertex that remains below from ends up with its final parents. */
    method WalkReduce(from: Vertex, depth: nat, ghost start: Vertex, ghost es: Edges)
      requires Valid() && !CycleBelow(es, from) && DepthsFrom(es, start, vertexDepth) && from in vertexDepth
      requires Survivors(es, vertexDepth) <= Edges() <= es
      modifies this`downEdges, this`upEdges
      ensures Valid()
      ensures Survivors(es, vertexDepth) <= Edges() <= old(Edges())
      ensures Settled(Edges(), Survivors(es, vertexDepth), from)
      decreases Reach(es, from)
    {
      hide Valid, Edges, Shallow, Survivors, CycleBelow, DepthsFrom, Settled;
      ghost var kept := Survivors(es, vertexDepth);
      DepthsPositive(es, start, vertexDepth);
      ShallowAnyTime(es, Edges(), vertexDepth, from);
      ProcessTransitiveReduction(from);
      var downs := GetDownVertexes(from);
      ghost var after := Edges();
      assert forall e :: e in after && e.to == from ==> e in kept;
      var todo := downs;
      while todo != {}
        invariant Valid() && todo <= downs
        invariant kept <= Edges() <= after
        invariant forall w :: w in downs - todo ==> Settled(Edges(), kept, w)
        decreases todo
      {
        var w :| w in todo;
        todo := todo - {w};
        assert Edge(from, w) in es;
        ChildRecorded(es, start, vertexDepth, from, w);
        StepShrinks(es, from, w);
        ghost var cur := Edges();
        WalkReduce(w, depth + 1, start, es);
        SettledShrinks(cur, Edges(), kept);
      }
      assert forall w :: Edge(from, w) in kept ==> w in downs;
      SettledFromChildren(Edges(), kept, from);
    }

    /** One pass from start: the two walks leave exactly the edges of Survivors. */
    method ReducePass(start: Vertex)
      requires Valid() && !CycleBelow(Edges(), start)
      modifies this`downEdges, this`upEdges, this`vertexDepth
      ensures Valid() && LastVisits(old(Edges()), start, vertexDepth)
      ensures Edges() == Survivors(old(Edges()), vertexDepth)
    {
      ghost var es := Edges();
      ghost var t := WalkDepths(start, true, 1, es);
      LastVisitsAreDepths(es, start, vertexDepth);
      ReachesSelf(es, start);
      ReachMember(es, start, start);
      WalkReduce(start, 1, start, es);
      SettledIsFinal(Edges(), es, start, vertexDepth);
    }

    /** Passes from every vertex, in any order. A cycle that no vertex leads to does no harm. */
    method TransitiveReduction()
      requires Valid() && NoCycleBelow(vertices.Keys, Edges())
      modifies this`downEdges, this`upEdges, this`vertexDepth
      ensures Valid()
      ensures exists run :: Run(vertices.Keys, old(Edges()), run, Edges())
      ensures var below := Below(vertices.Keys, old(Edges()));
              Reduced(vertices.Keys, below, Edges() * below) && old(Edges()) - below <= Edges() <= old(Edges())
      ensures Acyclic(old(Edges())) ==> Reduced(vertices.Keys, old(Edges()), Edges())
    {
      hide CycleBelow, Reduced, Below, Acyclic;
      ghost var es := Edges();
      ghost var run: seq<Stage> := [];
      var vs := GetVertices();
      var todo := vs.Keys;
      while todo != {}
        invariant Valid() && NoCycleBelow(vertices.Keys, Edges()) && todo <= vertices.Keys
        invariant Run(vertices.Keys - todo, es, run, Edges())
        decreases todo
      {
        var v :| v in todo;
        ghost var before := Edges();
        ReducePass(v);
        RunSnoc(vertices.Keys - todo, es, run, before, v, vertexDepth);
        run := run + [Stage(v, before, vertexDepth)];
        assert vertices.Keys - (todo - {v}) == (vertices.Keys - todo) + {v};
        todo := todo - {v};
        NoCycleInFewer(vertices.Keys, before, Edges());
      }
      assert vertices.Keys - {} == vertices.Keys;
      RunReducesBelow(vertices.Keys, es, run, Edges());
      if Acyclic(es) { RunReduces(vertices.Keys, es, run, Edges()); }
    }
  }

  // ----- facts the walks use -----

  /** The recorded edges into w that do not come from a deepest recorded parent. */
  ghost function Shallow(es: Edges, d: DepthMap, w: Vertex): Edges {
    set e | e in es && e.to == w && e.from in d && !Deepest(es, d, e)
  }

  /** Edges into a vertex that walk can reach from w are all final. */
  ghost predicate Settled(cur: Edges, kept: Edges, w: Vertex) {
    forall e :: e in cur && Reaches(kept, w, e.to) ==> e in kept
  }

  lemma ShallowByBest(es: Edges, d: DepthMap, w: Vertex, ups: set<Vertex>, best: nat)
    requires forall u :: u in ups <==> Edge(u, w) in es
    requires forall u :: u in ups && u in d ==> 0 < d[u] <= best
    requires best == 0 || exists u :: u in ups && u in d && d[u] == best
    ensures forall u :: Edge(u, w) in Shallow(es, d, w) <==> u in ups && u in d && d[u] != best
    ensures forall e :: e in Shallow(es, d, w) ==> e == Edge(e.from, w)
  {
    if best != 0 {
      var top :| top in ups && top in d && d[top] == best;
      forall u | u in ups && u in d
        ensures Deepest(es, d, Edge(u, w)) <==> d[u] == best
      {
        assert Edge(top, w) in es;
      }
    }
  }

  lemma DepthsPositive(es: Edges, start: Vertex, d: DepthMap)
    requires DepthsFrom(es, start, d)
    ensures forall x :: x in d ==> d[x] > 0
  {
    forall x | x in d
      ensures d[x] > 0
    {
      assert IsDepth(es, start, x, d[x]);
    }
  }

  lemma ChildRecorded(es: Edges, start: Vertex, d: DepthMap, from: Vertex, w: Vertex)
    requires DepthsFrom(es, start, d) && from in d && Edge(from, w) in es
    ensures w in d
  {
    ReachMember(es, start, from);
    ReachesEdge(es, start, from, w);
    ReachMember(es, start, w);
  }

  lemma SettledShrinks(cur: Edges, less: Edges, kept: Edges)
    requires less <= cur
    ensures forall w :: Settled(cur, kept, w) ==> Settled(less, kept, w)
  {}

  lemma SettledFromChildren(cur: Edges, kept: Edges, from: Vertex)
    requires forall e :: e in cur && e.to == from ==> e in kept
    requires forall w :: Edge(from, w) in kept ==> Settled(cur, kept, w)
    ensures Settled(cur, kept, from)
  {
    forall e | e in cur && Reaches(kept, from, e.to)
      ensures e in kept
    {
      if e.to != from {
        var p :| Walk(kept, from, p, e.to);
        assert Walk(kept, p[0], p[1..], e.to);
        assert Settled(cur, kept, p[0]);
      }
    }
  }

  lemma PassKeepsBelow(es: Edges, start: Vertex, d: DepthMap, x: Vertex)
    requires !CycleBelow(es, start) && LastVisits(es, start, d) && Reaches(es, start, x)
    ensures Reaches(Survivors(es, d), start, x)
  {
    var r := Under({start}, es);
    AcyclicBelow({start}, es);
    UnderClosed({start}, es);
    LastVisitsPart(es, r, start, d);
    LastVisitsAreDepths(Part(es, r), start, d);
    ReachesInPart(es, r, start, x);
    PassKeepsStart(Part(es, r), start, d, x);
    SurvivorsPart(es, r, d);
    ReachesMonotone(Survivors(Part(es, r), d), Survivors(es, d), start, x);
  }

  /** Once everything below the start is settled, the pass has reached its result. */
  lemma SettledIsFinal(cur: Edges, es: Edges, start: Vertex, d: DepthMap)
    requires !CycleBelow(es, start) && LastVisits(es, start, d)
    requires Survivors(es, d) <= cur <= es && Settled(cur, Survivors(es, d), start)
    ensures cur == Survivors(es, d)
  {
    hide CycleBelow, LastVisits;
    LastVisitsAreDepths(es, start, d);
    forall e | e in cur
      ensures e in Survivors(es, d)
    {
      if e.from in d {
        ReachMember(es, start, e.from);
        assert Edge(e.from, e.to) == e;
        ReachesEdge(es, start, e.from, e.to);
        PassKeepsBelow(es, start, d, e.to);
      }
    }
  }

  /** While a pass deletes edges, the parents to drop stay the ones they were. */
  lemma ShallowAnyTime(es: Edges, cur: Edges, d: DepthMap, w: Vertex)
    requires Survivors(es, d) <= cur <= es
    ensures Survivors(es, d) <= cur - Shallow(cur, d, w)
    ensures forall e :: e in cur - Shallow(cur, d, w) && e.to == w ==> e in Survivors(es, d)
  {
    forall e | e in cur && e.to == w && e.from in d
      ensures Deepest(cur, d, e) <==> Deepest(es, d, e)
    {
      var p := DeepestParent(es, d, w, e.from);
      assert Edge(p, w) in cur && Deepest(es, d, Edge(p, w));
    }
  }
}
