/** The life of a runnable group: calls of Add, one Start, the reconciler, the runnables with their
    checks, and one StopAndWait, interleaved in any order. */
module RunnableGroup {

  /** Runnables are told apart by the Add call that brought them. */
  type Id = nat

  /** An Add call under way: before it looks at stopped, before it takes the start lock, or sending on ch. */
  datatype AddPc = Entering | Accepted | Sending

  /** The goroutine of a runnable: not yet past the launch of its check, past it, in Start, returned. */
  datatype Run = Born | Armed | Running | Ended

  datatype Check = NotYet | Checking | Signalling | Passed | Failed

  datatype Live = Live(signal: bool, run: Run, check: Check)

  /** Start: not called, before the start lock, sending the queue with the lock held, waiting for the
      queue to empty, returned with startReadyCh closed. */
  datatype Starter = NotBegun | Spawned | Feeding(rest: seq<Id>) | Waiting | Returned

  /** reconcile: not spawned, receiving, holding a runnable, having read stopped under the read lock
      that it still holds, ended. */
  datatype Recon = Unborn | Recv | Holding(id: Id, signal: bool) | Decided(id: Id, signal: bool, stop: bool) | Gone

  /** StopAndWait: not called, inside its call of Start, before the write lock, waiting for the
      runnables, out of the wait (byDone or by the expiry of its context), ch closed. */
  datatype Stopper = Idle | CallingStart | Flagging | WaitAll | Left(byDone: bool) | Closed(byDone: bool)

  /** calls (all Add calls made) and log (the order in which runnables were started) are history. */
  datatype State = State(
    adders: map<Id, AddPc>,
    startQueue: seq<Id>,
    starter: Starter,
    recon: Recon,
    live: map<Id, Live>,
    dropped: map<Id, bool>,
    rejected: set<Id>,
    wg: int,
    stopped: bool,
    chClosed: bool,
    stopper: Stopper,
    calls: set<Id>,
    log: seq<Id>)

  datatype Action =
    | CallAdd(id: Id)
    | LookStopped(id: Id)
    | LockAdd(id: Id)
    | SendAdd(id: Id)
    | BeginStart
    | LockStart
    | Feed
    | UnlockStart
    | FinishStart
    | ReadStopped
    | Admit
    | Drop
    | EndReconcile
    | Arm(id: Id)
    | CallRun(id: Id)
    | EndRun(id: Id)
    | CheckDone(id: Id, ok: bool)
    | Signal(id: Id)
    | BeginStop
    | StartDone
    | SetStopped
    | LeaveDone
    | LeaveCtx
    | CloseCh

  const Init: State :=
    State(map[], [], NotBegun, Unborn, map[], map[], {}, 0, false, false, Idle, {}, [])

  /** The started flag is set as Start takes its lock. */
  predicate Started(s: State) {
    s.starter.Feeding? || s.starter.Waiting? || s.starter.Returned?
  }

  ghost predicate Enabled(s: State, a: Action) {
    match a
    case CallAdd(id) => id !in s.calls
    case LookStopped(id) => id in s.adders && s.adders[id].Entering?
    case LockAdd(id) => id in s.adders && s.adders[id].Accepted? && !s.starter.Feeding?
    case SendAdd(id) => id in s.adders && s.adders[id].Sending? && s.recon.Recv? && !s.chClosed
    case BeginStart => s.starter.NotBegun?
    case LockStart => s.starter.Spawned?
    case Feed => s.starter.Feeding? && s.starter.rest != [] && s.recon.Recv? && !s.chClosed
    case UnlockStart => s.starter == Feeding([])
    case FinishStart => s.starter.Waiting? && s.startQueue == []
    case ReadStopped => s.recon.Holding?
    case Admit => s.recon.Decided? && !s.recon.stop
    case Drop => s.recon.Decided? && s.recon.stop
    case EndReconcile => s.recon.Recv? && s.chClosed
    case Arm(id) => id in s.live && s.live[id].run.Born?
    case CallRun(id) => id in s.live && s.live[id].run.Armed?
    case EndRun(id) => id in s.live && s.live[id].run.Running?
    case CheckDone(id, ok) => id in s.live && s.live[id].check.Checking?
    case Signal(id) => id in s.live && s.live[id].check.Signalling? && s.starter.Waiting?
    case BeginStop => s.stopper.Idle?
    case StartDone => s.stopper.CallingStart? && s.starter.Returned?
    case SetStopped => s.stopper.Flagging? && !s.recon.Decided?
    case LeaveDone => s.stopper.WaitAll? && s.wg == 0
    case LeaveCtx => s.stopper.WaitAll?
    case CloseCh => s.stopper.Left?
  }

  function Remove(q: seq<Id>, id: Id): (r: seq<Id>)
    ensures id in q ==> multiset(r) == multiset(q) - multiset{id}
  {
    if q == [] then []
    else if q[0] == id then
      assert q == [q[0]] + q[1..];
      q[1..]
    else
      assert q == [q[0]] + q[1..];
      [q[0]] + Remove(q[1..], id)
  }

  ghost function Next(s: State, a: Action): State
    requires Enabled(s, a)
  {
    match a
    case CallAdd(id) => s.(calls := s.calls + {id}, adders := s.adders[id := Entering])
    case LookStopped(id) =>
      if s.stopped then s.(adders := s.adders - {id}, rejected := s.rejected + {id})
      else s.(adders := s.adders[id := Accepted])
    case LockAdd(id) =>
      if !Started(s) then s.(adders := s.adders - {id}, startQueue := s.startQueue + [id])
      else s.(adders := s.adders[id := Sending])
    case SendAdd(id) => s.(adders := s.adders - {id}, recon := Holding(id, false))
    case BeginStart => s.(starter := Spawned, recon := Recv)
    case LockStart => s.(starter := Feeding(s.startQueue))
    case Feed => s.(starter := Feeding(s.starter.rest[1..]), recon := Holding(s.starter.rest[0], true))
    case UnlockStart => s.(starter := Waiting)
    case FinishStart => s.(starter := Returned)
    case ReadStopped => s.(recon := Decided(s.recon.id, s.recon.signal, s.stopped))
    case Admit =>
      s.(recon := Recv, wg := s.wg + 1, live := s.live[s.recon.id := Live(s.recon.signal, Born, NotYet)])
    case Drop => s.(recon := Recv, dropped := s.dropped[s.recon.id := s.recon.signal])
    case EndReconcile => s.(recon := Gone)
    case Arm(id) => s.(live := s.live[id := s.live[id].(run := Armed, check := Checking)])
    case CallRun(id) => s.(live := s.live[id := s.live[id].(run := Running)], log := s.log + [id])
    case EndRun(id) => s.(live := s.live[id := s.live[id].(run := Ended)], wg := s.wg - 1)
    case CheckDone(id, ok) =>
      s.(live := s.live[id := s.live[id].(check :=
           if !ok then Failed else if s.live[id].signal then Signalling else Passed)])
    case Signal(id) =>
      s.(live := s.live[id := s.live[id].(check := Passed)], startQueue := Remove(s.startQueue, id))
    case BeginStop => s.(stopper := CallingStart)
    case StartDone => s.(stopper := Flagging)
    case SetStopped => s.(stopped := true, stopper := WaitAll)
    case LeaveDone => s.(stopper := Left(true))
    case LeaveCtx => s.(stopper := Left(false))
    case CloseCh => s.(chClosed := true, stopper := Closed(s.stopper.byDone))
  }

  ghost predicate Steps(s: State, acts: seq<Action>, t: State)
    decreases |acts|
  {
    if acts == [] then s == t else Enabled(s, acts[0]) && Steps(Next(s, acts[0]), acts[1..], t)
  }

  ghost predicate Reachable(s: State) {
    exists acts :: Steps(Init, acts, s)
  }

  // ----- where a runnable is -----

  /** What Start has yet to send. */
  function Unfed(s: State): seq<Id> {
    match s.starter
    case NotBegun => s.startQueue
    case Spawned => s.startQueue
    case Feeding(rest) => rest
    case _ => []
  }

  predicate Holds(r: Recon, id: Id) {
    (r.Holding? || r.Decided?) && r.id == id
  }

  predicate OfAdd(a: Action) {
    a.CallAdd? || a.LookStopped? || a.LockAdd? || a.SendAdd?
  }

  predicate OfStart(a: Action) {
    a.BeginStart? || a.LockStart? || a.Feed? || a.UnlockStart? || a.FinishStart?
  }

  predicate OfRecon(a: Action) {
    a.ReadStopped? || a.Admit? || a.Drop? || a.EndReconcile?
  }

  predicate OfLive(a: Action) {
    a.Arm? || a.CallRun? || a.EndRun? || a.CheckDone? || a.Signal?
  }

  /** In how many places the runnable of an Add call is. */
  function Places(s: State, id: Id): nat {
    (if id in s.adders then 1 else 0) + multiset(Unfed(s))[id] + (if Holds(s.recon, id) then 1 else 0)
    + (if id in s.live then 1 else 0) + (if id in s.dropped then 1 else 0) + (if id in s.rejected then 1 else 0)
  }

  /** Nothing is lost and nothing is duplicated. */
  ghost predicate Conserved(s: State) {
    forall id :: Placed(s, id)
  }

  ghost predicate Placed(s: State, id: Id) {
    Places(s, id) == if id in s.calls then 1 else 0
  }

  /** A runnable that Start still has to hear of. */
  function Awaited(s: State, id: Id): nat {
    multiset(Unfed(s))[id] + (if Holds(s.recon, id) && s.recon.signal then 1 else 0)
    + (if id in s.live && s.live[id].signal && !s.live[id].check.Passed? then 1 else 0)
  }

  ghost predicate AwaitedOK(s: State, id: Id) {
    multiset(s.startQueue)[id] == Awaited(s, id)
  }

  /** Until Start has returned, the start queue holds exactly those. */
  ghost predicate QueueOK(s: State) {
    && (forall id :: AwaitedOK(s, id))
    && (s.starter.Returned? ==> s.startQueue == [])
    && (s.starter.NotBegun? <==> s.recon.Unborn?)
  }

  /** How far StopAndWait is, and what that implies for the others. */
  ghost predicate StopOK(s: State) {
    && (s.stopper.Flagging? || s.stopper.WaitAll? || s.stopper.Left? || s.stopper.Closed? ==> s.starter.Returned?)
    && (s.stopped <==> s.stopper.WaitAll? || s.stopper.Left? || s.stopper.Closed?)
    && (s.chClosed <==> s.stopper.Closed?)
    && (s.recon.Decided? ==> s.recon.stop == s.stopped)
    && (forall id :: id in s.dropped ==> !s.dropped[id])
    && (s.recon.Gone? ==> s.chClosed)
  }

  function Busy(live: map<Id, Live>): set<Id> {
    set id | id in live && !live[id].run.Ended?
  }

  /** The counter of the WaitGroup is the number of runnables that have not returned. */
  ghost predicate WaitOK(s: State) {
    && s.wg == |Busy(s.live)|
    && ((s.stopper.Left? || s.stopper.Closed?) && s.stopper.byDone ==> s.wg == 0)
  }

  ghost predicate LiveOK(live: map<Id, Live>) {
    forall id :: id in live ==>
      && (live[id].run.Born? <==> live[id].check.NotYet?)
      && (live[id].check.Signalling? ==> live[id].signal)
  }

  /** The log holds each runnable that has been started, once. */
  ghost predicate LogOK(s: State) {
    forall id :: Logged(s, id)
  }

  ghost predicate Logged(s: State, id: Id) {
    multiset(s.log)[id] == if id in s.live && (s.live[id].run.Running? || s.live[id].run.Ended?) then 1 else 0
  }

  ghost predicate Inv(s: State) {
    Conserved(s) && QueueOK(s) && StopOK(s) && WaitOK(s) && LiveOK(s.live) && LogOK(s)
  }

  // ----- what an action leaves alone -----

  lemma UntouchedQueues(s: State, a: Action)
    requires Enabled(s, a)
    ensures var t := Next(s, a);
            && (!OfAdd(a) ==> t.adders == s.adders && t.rejected == s.rejected && t.calls == s.calls)
            && (!a.LockAdd? && !a.Signal? ==> t.startQueue == s.startQueue)
            && (!OfStart(a) ==> t.starter == s.starter)
  {}

  lemma UntouchedRuns(s: State, a: Action)
    requires Enabled(s, a)
    ensures var t := Next(s, a);
            && (!a.SendAdd? && !OfRecon(a) && !a.BeginStart? && !a.Feed? ==> t.recon == s.recon)
            && (!a.Drop? ==> t.dropped == s.dropped)
  {}

  lemma UntouchedLive(s: State, a: Action)
    requires Enabled(s, a) && !OfLive(a) && !a.Admit?
    ensures var t := Next(s, a); t.live == s.live && t.log == s.log && t.wg == s.wg
  {}

  lemma Untouched(s: State, a: Action)
    requires Enabled(s, a)
    ensures var t := Next(s, a);
            && (!OfAdd(a) ==> t.adders == s.adders && t.rejected == s.rejected && t.calls == s.calls)
            && (!a.LockAdd? && !a.Signal? ==> t.startQueue == s.startQueue)
            && (!OfStart(a) ==> t.starter == s.starter)
            && (!a.SendAdd? && !OfRecon(a) && !a.BeginStart? && !a.Feed? ==> t.recon == s.recon)
            && (!OfLive(a) && !a.Admit? ==> t.live == s.live && t.log == s.log && t.wg == s.wg)
            && (!a.Drop? ==> t.dropped == s.dropped)
            && (!a.SetStopped? ==> t.stopped == s.stopped)
            && (!a.CloseCh? ==> t.chClosed == s.chClosed)
            && (!a.BeginStop? && !a.StartDone? && !a.SetStopped? && !a.LeaveDone? && !a.LeaveCtx? && !a.CloseCh? ==>
                  t.stopper == s.stopper)
  {
    UntouchedQueues(s, a);
    UntouchedRuns(s, a);
    if !OfLive(a) && !a.Admit? { UntouchedLive(s, a); }
    hide OfAdd, OfStart, OfRecon, OfLive, Enabled;
  }

  /** A step of a runnable keeps the set of live runnables and which of them are initial. */
  lemma LiveKeys(s: State, a: Action)
    requires Enabled(s, a) && OfLive(a)
    ensures var t := Next(s, a);
            && a.id in s.live && t.live == s.live[a.id := t.live[a.id]]
            && t.live[a.id].signal == s.live[a.id].signal
  {}

  lemma LiveChecks(s: State, a: Action)
    requires Enabled(s, a) && OfLive(a) && LiveOK(s.live) && a.id in s.live && s.live[a.id].signal && !a.Signal?
    ensures Next(s, a).live[a.id].check.Passed? == s.live[a.id].check.Passed?
  {}

  // ----- each part is kept by every step -----

  lemma MultisetHead(q: seq<Id>)
    requires q != []
    ensures multiset(q) == multiset{q[0]} + multiset(q[1..])
  {
    assert q == [q[0]] + q[1..];
  }

  lemma PlacedAdd(s: State, a: Action, id: Id)
    requires Placed(s, id) && Enabled(s, a) && (a.CallAdd? || a.LookStopped? || a.SendAdd?)
    ensures Placed(Next(s, a), id)
  {}

  lemma PlacedLock(s: State, x: Id, id: Id)
    requires Placed(s, id) && Enabled(s, LockAdd(x))
    ensures Placed(Next(s, LockAdd(x)), id)
  {
    LockMoves(s, x);
    hide Enabled, Next, Unfed;
  }

  /** Add either comes to send, or its runnable goes to the end of the queue. */
  lemma LockMoves(s: State, x: Id)
    requires Enabled(s, LockAdd(x))
    ensures var t := Next(s, LockAdd(x));
            && t.recon == s.recon && t.live == s.live && t.dropped == s.dropped
            && t.rejected == s.rejected && t.calls == s.calls
            && x in s.adders
            && if Started(s) then t.adders.Keys == s.adders.Keys && t.startQueue == s.startQueue && Unfed(t) == Unfed(s)
               else
                 && t.adders.Keys == s.adders.Keys - {x}
                 && t.startQueue == s.startQueue + [x] && Unfed(t) == Unfed(s) + [x]
  {}

  lemma PlacedFeed(s: State, id: Id)
    requires Placed(s, id) && Enabled(s, Feed)
    ensures Placed(Next(s, Feed), id)
  {
    MultisetHead(s.starter.rest);
  }

  lemma PlacedRecon(s: State, a: Action, id: Id)
    requires Placed(s, id) && Enabled(s, a) && OfRecon(a)
    ensures Placed(Next(s, a), id)
  {}

  /** The steps of Start but Feed leave what is to be fed as it is. */
  lemma UnfedSame(s: State, a: Action)
    requires Enabled(s, a) && (s.starter.NotBegun? <==> s.recon.Unborn?) && !OfAdd(a) && !a.Feed?
    ensures a.Signal? || Unfed(Next(s, a)) == Unfed(s)
    ensures a.Signal? ==> Unfed(s) == [] == Unfed(Next(s, a))
    ensures OfStart(a) ==> forall id :: !Holds(s.recon, id) || Next(s, a).recon == s.recon
    ensures OfStart(a) ==> forall id :: !Holds(Next(s, a).recon, id) || Next(s, a).recon == s.recon
  {}

  lemma PlacedStep(s: State, a: Action, id: Id)
    requires Placed(s, id) && Enabled(s, a) && (s.starter.NotBegun? <==> s.recon.Unborn?)
    ensures Placed(Next(s, a), id)
  {
    hide Enabled, Next;
    if a.LockAdd? {
      PlacedLock(s, a.id, id);
    } else if OfAdd(a) {
      PlacedAdd(s, a, id);
    } else if a.Feed? {
      PlacedFeed(s, id);
    } else if OfRecon(a) {
      PlacedRecon(s, a, id);
    } else {
      Untouched(s, a);
      UnfedSame(s, a);
      if OfLive(a) { LiveKeys(s, a); }
    }
  }

  lemma ConservedStep(s: State, a: Action)
    requires Conserved(s) && Enabled(s, a) && (s.starter.NotBegun? <==> s.recon.Unborn?)
    ensures Conserved(Next(s, a))
  {
    hide Placed, Enabled, Next;
    forall id
      ensures Placed(Next(s, a), id)
    {
      PlacedStep(s, a, id);
    }
  }

  lemma AwaitedLock(s: State, x: Id, id: Id)
    requires AwaitedOK(s, id) && Enabled(s, LockAdd(x))
    ensures AwaitedOK(Next(s, LockAdd(x)), id)
  {
    var t := Next(s, LockAdd(x));
    if Started(s) {
      assert Unfed(t) == Unfed(s);
    } else {
      assert Unfed(s) == s.startQueue && Unfed(t) == s.startQueue + [x];
    }
  }

  lemma AwaitedFeed(s: State, id: Id)
    requires AwaitedOK(s, id) && Enabled(s, Feed)
    ensures AwaitedOK(Next(s, Feed), id)
  {
    MultisetHead(s.starter.rest);
  }

  lemma AwaitedRecon(s: State, a: Action, id: Id)
    requires AwaitedOK(s, id) && Placed(s, id) && Enabled(s, a)
    requires a.SendAdd? || OfRecon(a)
    requires a.Drop? ==> s.recon.Decided? && !s.recon.signal
    ensures AwaitedOK(Next(s, a), id)
  {
    assert Unfed(Next(s, a)) == Unfed(s);
  }

  lemma AwaitedSignal(s: State, x: Id, id: Id)
    requires AwaitedOK(s, id) && Enabled(s, Signal(x)) && x in s.startQueue && s.live[x].signal
    ensures AwaitedOK(Next(s, Signal(x)), id)
  {
    assert multiset(Next(s, Signal(x)).startQueue) == multiset(s.startQueue) - multiset{x};
  }

  lemma AwaitedStep(s: State, a: Action, id: Id)
    requires AwaitedOK(s, id) && LiveOK(s.live) && Placed(s, id) && Enabled(s, a)
    requires s.starter.NotBegun? <==> s.recon.Unborn?
    requires a.Signal? ==> a.id in s.startQueue && a.id in s.live && s.live[a.id].signal
    requires a.Drop? ==> s.recon.Decided? && !s.recon.signal
    ensures AwaitedOK(Next(s, a), id)
  {
    hide Enabled, Next, Placed, LiveOK;
    if a.LockAdd? {
      AwaitedLock(s, a.id, id);
    } else if a.Feed? {
      AwaitedFeed(s, id);
    } else if a.SendAdd? || OfRecon(a) {
      AwaitedRecon(s, a, id);
    } else if a.Signal? {
      AwaitedSignal(s, a.id, id);
    } else {
      Untouched(s, a);
      if !OfAdd(a) { UnfedSame(s, a); }
      if OfLive(a) {
        LiveKeys(s, a);
        if s.live[a.id].signal { LiveChecks(s, a); }
      }
    }
  }

  lemma SignalAwaited(s: State, id: Id)
    requires QueueOK(s) && LiveOK(s.live) && id in s.live && s.live[id].check.Signalling?
    ensures id in s.startQueue && s.live[id].signal
  {
    assert AwaitedOK(s, id);
  }

  lemma QueueStep(s: State, a: Action)
    requires Conserved(s) && QueueOK(s) && StopOK(s) && Enabled(s, a) && LiveOK(s.live)
    ensures QueueOK(Next(s, a))
  {
    hide Placed, LiveOK, StopOK, AwaitedOK;
    if a.Drop? { DropsLate(s); }
    if a.Signal? { SignalAwaited(s, a.id); }
    forall id
      ensures AwaitedOK(Next(s, a), id)
    {
      AwaitedStep(s, a, id);
    }
  }

  /** What stopped makes the reconciler drop did not come from the start queue. */
  lemma DropsLate(s: State)
    requires QueueOK(s) && StopOK(s) && Enabled(s, Drop)
    ensures s.recon.Decided? && !s.recon.signal
  {
    assert AwaitedOK(s, s.recon.id);
  }

  lemma StopStep(s: State, a: Action)
    requires QueueOK(s) && StopOK(s) && Enabled(s, a)
    ensures StopOK(Next(s, a))
  {
    hide QueueOK;
    if a.Drop? { DropsLate(s); }
  }

  lemma BusyAdmit(s: State)
    requires s.recon.Decided? && Placed(s, s.recon.id) && Enabled(s, Admit) && s.wg == |Busy(s.live)|
    ensures Next(s, Admit).wg == |Busy(Next(s, Admit).live)|
  {
    assert s.recon.id !in s.live;
    assert Busy(Next(s, Admit).live) == Busy(s.live) + {s.recon.id};
  }

  lemma BusyLive(s: State, a: Action)
    requires Enabled(s, a) && OfLive(a) && s.wg == |Busy(s.live)|
    ensures Next(s, a).wg == |Busy(Next(s, a).live)|
    ensures s.wg == 0 ==> Next(s, a).wg == 0
  {
    LiveKeys(s, a);
    LiveEnds(s, a);
    hide Enabled, Next;
    if a.EndRun? {
      assert a.id in Busy(s.live);
      assert Busy(Next(s, a).live) == Busy(s.live) - {a.id};
    } else {
      assert Busy(Next(s, a).live) == Busy(s.live);
    }
  }

  lemma LiveEnds(s: State, a: Action)
    requires Enabled(s, a) && OfLive(a)
    ensures a.EndRun? ==> !s.live[a.id].run.Ended? && Next(s, a).live[a.id].run.Ended? && Next(s, a).wg == s.wg - 1
    ensures !a.EndRun? ==>
              (Next(s, a).live[a.id].run.Ended? <==> s.live[a.id].run.Ended?) && Next(s, a).wg == s.wg
  {}

  lemma WaitStep(s: State, a: Action)
    requires Conserved(s) && StopOK(s) && WaitOK(s) && Enabled(s, a)
    ensures WaitOK(Next(s, a))
  {
    hide Busy, Conserved, Placed, OfLive;
    if a.Admit? {
      assert Placed(s, s.recon.id) by { PlacedOf(s, s.recon.id); }
      BusyAdmit(s);
    } else if a.Arm? || a.CallRun? || a.EndRun? || a.CheckDone? || a.Signal? {
      IsOfLive(a);
      BusyLive(s, a);
    }
  }

  lemma IsOfLive(a: Action)
    requires a.Arm? || a.CallRun? || a.EndRun? || a.CheckDone? || a.Signal?
    ensures OfLive(a)
  {}

  lemma PlacedOf(s: State, id: Id)
    requires Conserved(s)
    ensures Placed(s, id)
  {}

  lemma LoggedLive(s: State, a: Action, id: Id)
    requires Logged(s, id) && Enabled(s, a) && OfLive(a)
    ensures Logged(Next(s, a), id)
  {}

  lemma LoggedAdmit(s: State, id: Id)
    requires Placed(s, id) && Logged(s, id) && Enabled(s, Admit)
    ensures Logged(Next(s, Admit), id)
  {
    if id == s.recon.id { assert id !in s.live; }
  }

  lemma LoggedStep(s: State, a: Action, id: Id)
    requires Placed(s, id) && Logged(s, id) && Enabled(s, a)
    ensures Logged(Next(s, a), id)
  {
    hide Enabled, Next, Placed;
    if a.Admit? {
      LoggedAdmit(s, id);
    } else if OfLive(a) {
      LoggedLive(s, a, id);
    } else {
      Untouched(s, a);
    }
  }

  lemma LiveStep(s: State, a: Action)
    requires LiveOK(s.live) && Enabled(s, a)
    ensures LiveOK(Next(s, a).live)
  {
    if !OfLive(a) && !a.Admit? {
      hide Enabled, Next;
      Untouched(s, a);
    }
  }

  lemma LogStep(s: State, a: Action)
    requires Conserved(s) && LogOK(s) && Enabled(s, a)
    ensures LogOK(Next(s, a))
  {
    hide Placed, Logged, Enabled, Next;
    forall id
      ensures Logged(Next(s, a), id)
    {
      LoggedStep(s, a, id);
    }
  }

  lemma InvStep(s: State, a: Action)
    requires Inv(s) && Enabled(s, a)
    ensures Inv(Next(s, a))
  {
    hide Conserved, StopOK, WaitOK, LiveOK, LogOK, Enabled, Next;
    ConservedStep(s, a);
    QueueStep(s, a);
    StopStep(s, a);
    WaitStep(s, a);
    LiveStep(s, a);
    LogStep(s, a);
  }

  lemma {:induction false} InvSteps(s: State, acts: seq<Action>, t: State)
    requires Inv(s) && Steps(s, acts, t)
    ensures Inv(t)
    decreases |acts|
  {
    hide Inv;
    if acts != [] {
      InvStep(s, acts[0]);
      InvSteps(Next(s, acts[0]), acts[1..], t);
    }
  }

  lemma InvReachable(s: State)
    requires Reachable(s)
    ensures Inv(s)
  {
    assert Inv(Init);
    var acts :| Steps(Init, acts, s);
    InvSteps(Init, acts, s);
  }
}
