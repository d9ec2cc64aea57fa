/** In which order the controller manager starts its three groups of runnables, and stops them. */
module Manager {
  import G = RunnableGroup
  import S = RunnableGroupSafety

  datatype Group = Caches | Others | Elected

  /** Start of the manager: adding the cluster, starting the caches, starting the others, then running. */
  datatype StartPc = AddingCluster | StartingCaches | StartingOthers | Serving | Over

  /** The stop procedure waits for one group after the other. */
  datatype StopPc = NotStopping | Stopping(group: Group) | AllStopped

  /** election says that the goroutine that starts the elected group has been spawned, and clusterFailed
      that adding the cluster failed (history). */
  datatype State = State(
    caches: G.State,
    others: G.State,
    elected: G.State,
    start: StartPc,
    stop: StopPc,
    election: bool,
    clusterFailed: bool)

  datatype Action =
    | In(g: Group, a: G.Action)
    | ClusterAdded
    | ClusterFailed
    | CachesStarted
    | OthersStarted
    | StartError
    | Finish
    | BeginStopOf
    | StopNext

  const Init: State := State(G.Init, G.Init, G.Init, AddingCluster, NotStopping, false, false)

  ghost function Of(s: State, g: Group): G.State {
    match g
    case Caches => s.caches
    case Others => s.others
    case Elected => s.elected
  }

  ghost function With(s: State, g: Group, t: G.State): State {
    match g
    case Caches => s.(caches := t)
    case Others => s.(others := t)
    case Elected => s.(elected := t)
  }

  /** Start of a group is called by the manager when it is that far, and by StopAndWait. */
  ghost predicate MayStart(s: State, g: Group) {
    || Of(s, g).stopper.CallingStart?
    || match g
       case Caches => s.start.StartingCaches?
       case Others => s.start.StartingOthers?
       case Elected => s.election
  }

  ghost predicate Enabled(s: State, a: Action) {
    match a
    case In(g, b) => G.Enabled(Of(s, g), b) && !b.BeginStop? && (b.BeginStart? ==> MayStart(s, g))
    case ClusterAdded => s.start.AddingCluster?
    case ClusterFailed => s.start.AddingCluster?
    case CachesStarted => s.start.StartingCaches? && s.caches.starter.Returned?
    case OthersStarted => s.start.StartingOthers? && s.others.starter.Returned?
    case StartError =>
      || (s.start.StartingCaches? && s.caches.starter.Returned?)
      || (s.start.StartingOthers? && s.others.starter.Returned?)
    case Finish => s.start.Serving?
    case BeginStopOf => s.stop.Stopping? && Of(s, s.stop.group).stopper.Idle?
    case StopNext => s.stop.Stopping? && Of(s, s.stop.group).stopper.Closed?
  }

  ghost function Next(s: State, a: Action): State
    requires Enabled(s, a)
  {
    match a
    case In(g, b) => With(s, g, G.Next(Of(s, g), b))
    case ClusterAdded => s.(start := StartingCaches)
    case ClusterFailed => s.(start := Over, stop := Stopping(Others), clusterFailed := true)
    case CachesStarted => s.(start := StartingOthers)
    case OthersStarted => s.(start := Serving, election := true)
    case StartError => s.(start := Over, stop := Stopping(Others))
    case Finish => s.(start := Over, stop := Stopping(Others))
    case BeginStopOf => With(s, s.stop.group, G.Next(Of(s, s.stop.group), G.BeginStop))
    case StopNext =>
      s.(stop := match s.stop.group
                 case Others => Stopping(Elected)
                 case Elected => Stopping(Caches)
                 case Caches => AllStopped)
  }

  ghost predicate Steps(s: State, acts: seq<Action>, t: State)
    decreases |acts|
  {
    if acts == [] then s == t else Enabled(s, acts[0]) && Steps(Next(s, acts[0]), acts[1..], t)
  }

  ghost predicate Reachable(s: State) {
    exists acts :: Steps(Init, acts, s)
  }

  // ----- what every run keeps -----

  ghost predicate Begun(g: G.State) {
    !g.starter.NotBegun?
  }

  /** The other groups have begun only after Start of the caches has returned, unless the cluster
      could not be added. */
  ghost predicate StartOrder(s: State) {
    && (Begun(s.others) || Begun(s.elected) || s.start.StartingOthers? || s.start.Serving? || s.election ==>
          s.caches.starter.Returned? || s.clusterFailed)
    && (s.stop.NotStopping? ==> s.others.stopper.Idle? && s.elected.stopper.Idle? && s.caches.stopper.Idle?)
    && (!s.stop.NotStopping? ==> s.caches.starter.Returned? || s.clusterFailed)
  }

  /** A group is stopped only after those before it have been. */
  ghost predicate StopOrder(s: State) {
    && (!s.elected.stopper.Idle? || s.stop == Stopping(Elected) ==> s.others.stopper.Closed?)
    && (!s.caches.stopper.Idle? || s.stop == Stopping(Caches) ==> s.others.stopper.Closed? && s.elected.stopper.Closed?)
    && (s.stop.AllStopped? ==> s.others.stopper.Closed? && s.elected.stopper.Closed? && s.caches.stopper.Closed?)
  }

  ghost predicate Inv(s: State) {
    && G.Reachable(s.caches) && G.Reachable(s.others) && G.Reachable(s.elected)
    && StartOrder(s) && StopOrder(s)
  }

  /** What a step of a group can do to the phases that the manager looks at. */
  lemma GroupStep(g: G.State, b: G.Action)
    requires G.Enabled(g, b)
    ensures var t := G.Next(g, b);
            && (Begun(t) <==> Begun(g) || b.BeginStart?)
            && (g.starter.Returned? ==> t.starter.Returned?)
            && (!b.BeginStop? ==> (t.stopper.Idle? <==> g.stopper.Idle?))
            && (g.stopper.Closed? ==> t.stopper.Closed?)
  {}

  lemma InvIn(s: State, g: Group, b: G.Action)
    requires Inv(s) && Enabled(s, In(g, b))
    ensures Inv(Next(s, In(g, b)))
  {
    hide G.Reachable, G.Enabled, G.Next;
    var t := S.Then(Of(s, g), b);
    GroupStep(Of(s, g), b);
  }

  lemma InvStep(s: State, a: Action)
    requires Inv(s) && Enabled(s, a)
    ensures Inv(Next(s, a))
  {
    hide G.Reachable, G.Enabled, G.Next;
    if a.In? {
      InvIn(s, a.g, a.a);
    } else if a.BeginStopOf? {
      assert G.Enabled(Of(s, s.stop.group), G.BeginStop) by { IdleBegins(Of(s, s.stop.group)); }
      var t := S.Then(Of(s, s.stop.group), G.BeginStop);
      GroupStep(Of(s, s.stop.group), G.BeginStop);
    }
  }

  lemma IdleBegins(g: G.State)
    requires g.stopper.Idle?
    ensures G.Enabled(g, G.BeginStop)
  {}

  lemma {:induction false} InvSteps(s: State, acts: seq<Action>, t: State)
    requires Inv(s) && Steps(s, acts, t)
    ensures Inv(t)
    decreases |acts|
  {
    hide Inv, Enabled, Next;
    if acts != [] {
      InvStep(s, acts[0]);
      InvSteps(Next(s, acts[0]), acts[1..], t);
    }
  }

  lemma InvReachable(s: State)
    requires Reachable(s)
    ensures Inv(s)
  {
    assert G.Steps(G.Init, [], G.Init);
    assert G.Reachable(G.Init);
    var acts :| Steps(Init, acts, s);
    InvSteps(Init, acts, s);
  }

  // ----- what follows -----

  /** No runnable of the other groups is started before every cache that was queued has synced, unless
      the cluster could not be added. */
  lemma CachesSyncFirst(s: State, id: G.Id)
    requires Reachable(s) && !s.clusterFailed
    requires s.others.log != [] || s.elected.log != []
    requires S.Initial(s.caches, id)
    ensures id in s.caches.live && s.caches.live[id].check.Passed?
  {
    InvReachable(s);
    if s.others.log != [] { S.NothingBeforeStart(s.others); } else { S.NothingBeforeStart(s.elected); }
    G.InvReachable(s.caches);
    S.ReturnedPassed(s.caches, id);
  }

  /** When a cache is told to stop, both other groups are through with their waits, and unless a wait ran
      out of time all its runnables have returned; and they will stay so. */
  lemma OthersStopFirst(s: State, g: Group)
    requires Reachable(s) && s.caches.stopped && g != Caches
    ensures Of(s, g).stopper.Closed?
    ensures Of(s, g).stopper.byDone ==> forall id :: id in Of(s, g).live ==> Of(s, g).live[id].run.Ended?
  {
    InvReachable(s);
    G.InvReachable(s.caches);
    G.InvReachable(Of(s, g));
    if Of(s, g).stopper.byDone {
      forall id | id in Of(s, g).live
        ensures Of(s, g).live[id].run.Ended?
      {
        S.QuietEnded(Of(s, g), id);
      }
    }
  }

  /** The caches are stopped last. */
  lemma CachesStopLast(s: State)
    requires Reachable(s) && !s.caches.stopper.Idle?
    ensures s.others.stopper.Closed? && s.elected.stopper.Closed?
  {
    InvReachable(s);
  }

  // ----- the exception -----

  lemma Then(s: State, a: Action) returns (t: State)
    requires Reachable(s) && Enabled(s, a)
    ensures Reachable(t) && t == Next(s, a)
  {
    var acts :| Steps(Init, acts, s);
    t := Next(s, a);
    StepsSnoc(Init, acts, s, a);
  }

  lemma {:induction false} StepsSnoc(s: State, acts: seq<Action>, t: State, a: Action)
    requires Steps(s, acts, t) && Enabled(t, a)
    ensures Steps(s, acts + [a], Next(t, a))
    decreases |acts|
  {
    hide Enabled, Next;
    if acts == [] {
      assert acts + [a] == [a];
      assert Steps(Next(t, a), [a][1..], Next(t, a));
    } else {
      StepsSnoc(Next(s, acts[0]), acts[1..], t, a);
      assert (acts + [a])[1..] == acts[1..] + [a];
    }
  }

  /** A runnable of the others waits in the queue while the manager adds the cluster. */
  ghost function Waiting(id: G.Id): G.State {
    G.Init.(startQueue := [id], calls := {id})
  }

  lemma QueueOne(id: G.Id)
    ensures Reachable(Init.(others := Waiting(id)))
  {
    assert Steps(Init, [], Init);
    var s := Then(Init, In(Others, G.CallAdd(id)));
    s := Then(s, In(Others, G.LookStopped(id)));
    s := Then(s, In(Others, G.LockAdd(id)));
    assert s.others.adders == map[] && s.others.startQueue == [id] && s.others.calls == {id};
    assert s == Init.(others := Waiting(id));
  }

  ghost function Sent(id: G.Id): G.State {
    Waiting(id).(starter := G.Feeding([]), recon := G.Holding(id, true), stopper := G.CallingStart)
  }

  lemma FeedOne(id: G.Id) returns (s: State)
    ensures Reachable(s) && s.others == Sent(id) && s.caches == G.Init
  {
    QueueOne(id);
    hide Reachable;
    s := Then(Init.(others := Waiting(id)), ClusterFailed);
    s := Then(s, BeginStopOf);
    s := Then(s, In(Others, G.BeginStart));
    s := Then(s, In(Others, G.LockStart));
    s := Then(s, In(Others, G.Feed));
    assert s.others.starter.rest == [];
  }

  /** StopAndWait calls Start: when the cluster cannot be added, the stop procedure starts what was
      queued, and no cache has begun. */
  lemma ClusterFailureStartsOthers(id: G.Id) returns (s: State)
    ensures Reachable(s) && id in s.others.log && !Begun(s.caches)
  {
    s := FeedOne(id);
    hide Reachable;
    s := Then(s, In(Others, G.ReadStopped));
    s := Then(s, In(Others, G.Admit));
    s := Then(s, In(Others, G.Arm(id)));
    s := Then(s, In(Others, G.CallRun(id)));
  }
}
