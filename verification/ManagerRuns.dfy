/** How far the manager can get: to serving, to its elected runnables, and to its end. */
module ManagerRuns {
  import opened Manager
  import G = RunnableGroup
  import S = RunnableGroupSafety
  import R = RunnableGroupRuns

  ghost predicate Leads(s: State, t: State) {
    exists acts :: Steps(s, acts, t)
  }

  lemma LeadsSelf(s: State)
    ensures Leads(s, s)
  {
    assert Steps(s, [], s);
  }

  lemma Step(s: State, t: State, a: Action) returns (u: State)
    requires Leads(s, t) && Good(t) && Enabled(t, a)
    ensures Leads(s, u) && Good(u) && u == Next(t, a)
  {
    hide Good, Enabled, Next;
    u := Next(t, a);
    var acts :| Steps(s, acts, t);
    StepsSnoc(s, acts, t, a);
    GoodStep(t, a);
  }

  lemma {:induction false} StepsOn(s: State, a: seq<Action>, t: State, b: seq<Action>, u: State)
    requires Steps(s, a, t) && Steps(t, b, u)
    ensures Steps(s, a + b, u)
    decreases |a|
  {
    hide Enabled, Next;
    if a == [] {
      assert a + b == b;
    } else {
      StepsOn(Next(s, a[0]), a[1..], t, b, u);
      assert (a + b)[1..] == a[1..] + b;
    }
  }

  lemma LeadsTrans(s: State, t: State, u: State)
    requires Leads(s, t) && Leads(t, u)
    ensures Leads(s, u)
  {
    var a :| Steps(s, a, t);
    var b :| Steps(t, b, u);
    StepsOn(s, a, t, b, u);
  }

  // ----- how far Start is -----

  ghost predicate PhaseOK(s: State) {
    && (s.start.Over? <==> !s.stop.NotStopping?)
    && (s.start.StartingOthers? ==> s.caches.starter.Returned?)
    && (s.start.Serving? ==> s.election && s.caches.starter.Returned? && s.others.starter.Returned?)
  }

  ghost predicate Good(s: State) {
    Inv(s) && PhaseOK(s)
  }

  lemma PhaseStep(s: State, a: Action)
    requires PhaseOK(s) && Enabled(s, a)
    ensures PhaseOK(Next(s, a))
  {
    hide G.Enabled, G.Next;
    if a.In? {
      GroupStep(Of(s, a.g), a.a);
    } else if a.BeginStopOf? {
      IdleBegins(Of(s, s.stop.group));
      GroupStep(Of(s, s.stop.group), G.BeginStop);
    }
  }

  lemma GoodStep(s: State, a: Action)
    requires Good(s) && Enabled(s, a)
    ensures Good(Next(s, a))
  {
    hide Inv, PhaseOK, Enabled, Next;
    InvStep(s, a);
    PhaseStep(s, a);
  }

  lemma {:induction false} GoodSteps(s: State, acts: seq<Action>, t: State)
    requires Good(s) && Steps(s, acts, t)
    ensures Good(t)
    decreases |acts|
  {
    hide Good, Enabled, Next;
    if acts != [] {
      GoodStep(s, acts[0]);
      GoodSteps(Next(s, acts[0]), acts[1..], t);
    }
  }

  lemma GoodReachable(s: State)
    requires Reachable(s)
    ensures Good(s)
  {
    assert Steps(Init, [], Init);
    InvReachable(Init);
    var acts :| Steps(Init, acts, s);
    GoodSteps(Init, acts, s);
  }

  lemma GoodGroup(s: State, g: Group)
    requires Good(s)
    ensures R.Good(Of(s, g))
  {
    R.GoodReachable(Of(s, g));
  }

  // ----- a run of the manager and the runs of its groups -----

  lemma ProjectStep(s: State, a: Action, g: Group)
    requires Enabled(s, a)
    ensures R.Leads(Of(s, g), Of(Next(s, a), g))
  {
    hide G.Enabled, G.Next;
    var x, y := Of(s, g), Of(Next(s, a), g);
    if a.In? && a.g == g {
      assert G.Steps(y, [a.a][1..], y);
      assert G.Steps(x, [a.a], y);
    } else if a.BeginStopOf? && g == s.stop.group {
      IdleBegins(x);
      assert G.Steps(y, [G.BeginStop][1..], y);
      assert G.Steps(x, [G.BeginStop], y);
    } else {
      assert G.Steps(x, [], y);
    }
  }

  lemma {:induction false} Project(s: State, acts: seq<Action>, t: State, g: Group)
    requires Steps(s, acts, t)
    ensures R.Leads(Of(s, g), Of(t, g))
    decreases |acts|
  {
    hide Enabled, Next;
    if acts == [] {
      assert G.Steps(Of(s, g), [], Of(t, g));
    } else {
      var m := Next(s, acts[0]);
      ProjectStep(s, acts[0], g);
      Project(m, acts[1..], t, g);
      R.LeadsTrans(Of(s, g), Of(m, g), Of(t, g));
    }
  }

  lemma BeginsOnce(g: G.State)
    requires G.Enabled(g, G.BeginStart)
    ensures !Begun(g)
  {}

  lemma CallingStays(g: G.State, b: G.Action)
    requires G.Enabled(g, b) && g.stopper.CallingStart? && !Begun(g)
    ensures G.Next(g, b).stopper.CallingStart?
  {}

  /** A group that has begun, or may, can run within the manager as if it were alone. */
  lemma {:induction false} LiftSteps(s: State, g: Group, acts: seq<G.Action>, u: G.State)
    requires G.Steps(Of(s, g), acts, u) && R.Unstopped(acts) && (Begun(Of(s, g)) || MayStart(s, g))
    ensures Leads(s, With(s, g, u))
    decreases |acts|
  {
    hide G.Enabled, G.Next;
    if acts == [] {
      assert With(s, g, u) == s;
      LeadsSelf(s);
    } else {
      var b := acts[0];
      assert b in acts;
      if b.BeginStart? { BeginsOnce(Of(s, g)); }
      var m := Next(s, In(g, b));
      GroupStep(Of(s, g), b);
      if Of(s, g).stopper.CallingStart? && !Begun(Of(s, g)) { CallingStays(Of(s, g), b); }
      LiftSteps(m, g, acts[1..], u);
      assert With(m, g, u) == With(s, g, u);
      assert Steps(m, [In(g, b)][1..], m);
      assert Steps(s, [In(g, b)], m);
      LeadsTrans(s, m, With(s, g, u));
    }
  }

  lemma Lift(s: State, g: Group, u: G.State) returns (t: State)
    requires Good(s) && R.LeadsOn(Of(s, g), u) && (Begun(Of(s, g)) || MayStart(s, g))
    ensures Leads(s, t) && Good(t) && t == With(s, g, u)
  {
    hide Good;
    var acts :| G.Steps(Of(s, g), acts, u) && R.Unstopped(acts);
    LiftSteps(s, g, acts, u);
    t := With(s, g, u);
    var more :| Steps(s, more, t);
    GoodSteps(s, more, t);
  }

  /** Start of a group that may start can return, and nothing else need happen. */
  lemma GroupStarts(s: State, g: Group) returns (t: State)
    requires Good(s) && S.NoneFailed(Of(s, g)) && (Begun(Of(s, g)) || MayStart(s, g))
    ensures Leads(s, t) && Good(t) && t == With(s, g, Of(t, g)) && Of(t, g).starter.Returned?
    ensures Of(t, g).stopper == Of(s, g).stopper
  {
    hide Good, MayStart, Begun, S.NoneFailed, R.Good;
    GoodGroup(s, g);
    var u := R.StartReturnsOn(Of(s, g));
    t := Lift(s, g, u);
  }

  lemma ReturnedUnfailed(s: State, g: Group, t: State)
    requires Good(s) && Leads(s, t) && (Of(t, g).starter.Returned? || Of(t, g).stopped)
    ensures S.NoneFailed(Of(s, g))
  {
    hide G.Inv, PhaseOK, Inv;
    assert R.Good(Of(s, g)) by { GoodGroup(s, g); }
    var acts :| Steps(s, acts, t);
    Project(s, acts, t, g);
    var b :| G.Steps(Of(s, g), b, Of(t, g));
    if id :| S.CheckFailed(Of(s, g), id) {
      S.FailedCheckHangs(Of(s, g), id, b, Of(t, g));
    }
  }

  // ----- getting to serve -----

  ghost predicate CanServe(s: State) {
    exists t :: Leads(s, t) && t.start.Serving?
  }

  /** The manager can still come to serve exactly if no initial check of the caches or of the others has
      failed. */
  lemma ServesIff(s: State)
    requires Reachable(s) && !s.start.Over? && !s.start.Serving?
    ensures CanServe(s) <==> S.NoneFailed(s.caches) && S.NoneFailed(s.others)
  {
    GoodReachable(s);
    if CanServe(s) {
      var t :| Leads(s, t) && t.start.Serving?;
      var acts :| Steps(s, acts, t);
      GoodSteps(s, acts, t);
      ReturnedUnfailed(s, Caches, t);
      ReturnedUnfailed(s, Others, t);
    }
    if S.NoneFailed(s.caches) && S.NoneFailed(s.others) {
      var t := Serves(s);
    }
  }

  lemma Serves(s: State) returns (t: State)
    requires Good(s) && !s.start.Over? && !s.start.Serving?
    requires S.NoneFailed(s.caches) && S.NoneFailed(s.others)
    ensures Leads(s, t) && t.start.Serving?
  {
    hide Good, S.NoneFailed, Leads;
    LeadsSelf(s);
    t := s;
    if t.start.AddingCluster? { t := Step(s, t, ClusterAdded); }
    if t.start.StartingCaches? {
      var u := GroupStarts(t, Caches);
      LeadsTrans(s, t, u);
      t := Step(s, u, CachesStarted);
    }
    var v := GroupStarts(t, Others);
    LeadsTrans(s, t, v);
    t := Step(s, v, OthersStarted);
  }

  ghost predicate CanElect(s: State) {
    exists t :: Leads(s, t) && t.start.Serving? && t.elected.starter.Returned?
  }

  /** While it serves, all elected runnables that were queued can come to be started and ready exactly if
      no check of them has failed. */
  lemma ElectsIff(s: State)
    requires Reachable(s) && s.start.Serving?
    ensures CanElect(s) <==> S.NoneFailed(s.elected)
  {
    GoodReachable(s);
    if CanElect(s) {
      var t :| Leads(s, t) && t.start.Serving? && t.elected.starter.Returned?;
      ReturnedUnfailed(s, Elected, t);
    }
    if S.NoneFailed(s.elected) {
      var t := GroupStarts(s, Elected);
    }
  }

  /** While the manager serves, what has been added to a group can be started, be it one of the elected, to
      which Start comes last. */
  lemma AddedRuns(s: State, g: Group, id: G.Id) returns (t: State)
    requires Reachable(s) && s.start.Serving? && id in Of(s, g).calls
    ensures Leads(s, t) && t.start.Serving? && id in Of(t, g).log
  {
    GoodReachable(s);
    NotStoppedYet(s, g);
    assert Begun(Of(s, g)) || MayStart(s, g);
    hide Good, R.Good, Begun, MayStart;
    GoodGroup(s, g);
    var u := R.RunsOn(Of(s, g), id);
    t := Lift(s, g, u);
  }

  lemma NotStoppedYet(s: State, g: Group)
    requires Good(s) && s.stop.NotStopping?
    ensures !Of(s, g).stopped
  {
    G.InvReachable(Of(s, g));
  }

  // ----- getting to the end -----

  ghost predicate AllUnfailed(s: State) {
    S.NoneFailed(s.caches) && S.NoneFailed(s.others) && S.NoneFailed(s.elected)
  }

  lemma ReturnedNone(s: State, g: Group)
    requires Good(s) && Of(s, g).starter.Returned?
    ensures S.NoneFailed(Of(s, g))
  {
    LeadsSelf(s);
    ReturnedUnfailed(s, g, s);
  }

  /** From everywhere some way leads into the stop procedure: a failure, an error of Start, or the end of the
      context. */
  lemma Stops(s: State) returns (t: State)
    requires Good(s) && AllUnfailed(s)
    ensures Leads(s, t) && Good(t) && !t.stop.NotStopping? && AllUnfailed(t)
  {
    LeadsSelf(s);
    assert s.start.Over? <==> !s.stop.NotStopping?;
    hide Good, S.NoneFailed, Leads;
    t := s;
    match s.start {
      case AddingCluster => t := Step(s, t, ClusterFailed);
      case StartingCaches =>
        t := GroupStarts(s, Caches);
        ReturnedNone(t, Caches);
        t := Step(s, t, StartError);
      case StartingOthers =>
        t := GroupStarts(s, Others);
        ReturnedNone(t, Others);
        t := Step(s, t, StartError);
      case Serving => t := Step(s, t, Finish);
      case Over =>
    }
  }

  function After(g: Group): StopPc {
    match g
    case Others => Stopping(Elected)
    case Elected => Stopping(Caches)
    case Caches => AllStopped
  }

  lemma StopBegins(s: State) returns (t: State)
    requires Good(s) && s.stop.Stopping? && S.NoneFailed(Of(s, s.stop.group))
    ensures Leads(s, t) && Good(t) && t == With(s, s.stop.group, Of(t, s.stop.group))
    ensures var x := Of(t, s.stop.group);
            !x.stopper.Idle? && S.NoneFailed(x) && (Begun(x) || MayStart(t, s.stop.group))
  {
    LeadsSelf(s);
    var g := s.stop.group;
    t := s;
    if Of(s, g).stopper.Idle? {
      IdleBegins(Of(s, g));
      t := Step(s, s, BeginStopOf);
      assert forall id :: S.CheckFailed(Of(t, g), id) <==> S.CheckFailed(Of(s, g), id);
    }
    G.InvReachable(Of(t, g));
    assert G.StopOK(Of(t, g));
  }

  /** The group whose turn it is can be stopped, and no other need move. */
  lemma GroupStops(s: State) returns (t: State)
    requires Good(s) && s.stop.Stopping? && S.NoneFailed(Of(s, s.stop.group))
    ensures Leads(s, t) && Good(t) && t.stop == After(s.stop.group) && Of(t, s.stop.group).stopper.Closed?
    ensures forall g :: g != s.stop.group ==> Of(t, g) == Of(s, g)
  {
    hide Good, R.Good, R.LeadsOn, Leads, Begun, MayStart, S.NoneFailed, Enabled, Next, Of, With;
    var g := s.stop.group;
    var m := StopBegins(s);
    WithOne(s, g, Of(m, g));
    GoodGroup(m, g);
    var u := R.StopCanEnd(Of(m, g));
    var v := Lift(m, g, u);
    LeadsTrans(s, m, v);
    WithOne(m, g, u);
    TurnPasses(v);
    t := Step(s, v, StopNext);
  }

  lemma WithOne(s: State, g: Group, u: G.State)
    ensures Of(With(s, g, u), g) == u && With(s, g, u).stop == s.stop
    ensures forall h :: h != g ==> Of(With(s, g, u), h) == Of(s, h)
  {}

  lemma TurnPasses(s: State)
    requires s.stop.Stopping? && Of(s, s.stop.group).stopper.Closed?
    ensures Enabled(s, StopNext) && Next(s, StopNext).stop == After(s.stop.group)
    ensures forall g :: Of(Next(s, StopNext), g) == Of(s, g)
  {}

  lemma {:induction false} Ends(s: State) returns (t: State)
    requires Good(s) && !s.stop.NotStopping? && AllUnfailed(s)
    ensures Leads(s, t) && t.stop.AllStopped?
    decreases match s.stop case Stopping(Others) => 3 case Stopping(Elected) => 2 case Stopping(Caches) => 1 case _ => 0
  {
    hide Good, S.NoneFailed, Leads, R.Good;
    LeadsSelf(s);
    if s.stop.AllStopped? {
      t := s;
    } else {
      var g := s.stop.group;
      var m := GroupStops(s);
      ClosedNone(m, g);
      assert S.NoneFailed(Of(m, Caches)) && S.NoneFailed(Of(m, Others)) && S.NoneFailed(Of(m, Elected));
      t := Ends(m);
      LeadsTrans(s, m, t);
    }
  }

  lemma ClosedNone(s: State, g: Group)
    requires Good(s) && Of(s, g).stopper.Closed?
    ensures S.NoneFailed(Of(s, g))
  {
    G.InvReachable(Of(s, g));
    ReturnedNone(s, g);
  }

  ghost predicate CanEnd(s: State) {
    exists t :: Leads(s, t) && t.stop.AllStopped?
  }

  /** From every state the manager can come to the end of its stop procedure exactly if no initial check of
      any group has failed: one failed check, and it hangs, in Start or in the stop. */
  lemma EndsIff(s: State)
    requires Reachable(s)
    ensures CanEnd(s) <==> AllUnfailed(s)
  {
    GoodReachable(s);
    if AllUnfailed(s) {
      hide Good, AllUnfailed;
      var m := Stops(s);
      var t := Ends(m);
      LeadsTrans(s, m, t);
    }
    if CanEnd(s) {
      var t :| Leads(s, t) && t.stop.AllStopped?;
      var acts :| Steps(s, acts, t);
      GoodSteps(s, acts, t);
      G.InvReachable(t.caches);
      G.InvReachable(t.others);
      G.InvReachable(t.elected);
      ReturnedUnfailed(s, Caches, t);
      ReturnedUnfailed(s, Others, t);
      ReturnedUnfailed(s, Elected, t);
    }
  }
}
