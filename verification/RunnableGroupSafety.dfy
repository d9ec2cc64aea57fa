/** What the runnable group promises its users, and where it falls short. */
module RunnableGroupSafety {
  import opened RunnableGroup

  lemma {:induction false} StepsSnoc(s: State, acts: seq<Action>, t: State, a: Action)
    requires Steps(s, acts, t) && Enabled(t, a)
    ensures Steps(s, acts + [a], Next(t, a))
    decreases |acts|
  {
    hide Enabled, Next;
    if acts == [] {
      assert acts + [a] == [a];
      assert Steps(Next(t, a), [a][1..], Next(t, a));
    } else {
      StepsSnoc(Next(s, acts[0]), acts[1..], t, a);
      assert (acts + [a])[1..] == acts[1..] + [a];
    }
  }

  lemma Then(s: State, a: Action) returns (t: State)
    requires Reachable(s) && Enabled(s, a)
    ensures Reachable(t) && t == Next(s, a)
  {
    var acts :| Steps(Init, acts, s);
    t := Next(s, a);
    StepsSnoc(Init, acts, s, a);
  }

  lemma {:induction false} StepsOn(s: State, a: seq<Action>, t: State, b: seq<Action>, u: State)
    requires Steps(s, a, t) && Steps(t, b, u)
    ensures Steps(s, a + b, u)
    decreases |a|
  {
    hide Enabled, Next;
    if a == [] {
      assert a + b == b;
    } else {
      StepsOn(Next(s, a[0]), a[1..], t, b, u);
      assert (a + b)[1..] == a[1..] + b;
    }
  }

  // ----- conservation -----

  /** Every runnable that Add was called with is in exactly one place, and is started at most once. */
  lemma Accounted(s: State, id: Id)
    requires Reachable(s)
    ensures Places(s, id) == if id in s.calls then 1 else 0
    ensures multiset(s.log)[id] <= 1
    ensures id in s.log ==> id in s.live
  {
    InvReachable(s);
    assert Placed(s, id) && Logged(s, id);
  }

  // ----- the WaitGroup -----

  /** The counter is never increased once stopped is set, and is the number of runnables that have
      not returned. */
  lemma WaitGroupSafe(s: State)
    requires Reachable(s)
    ensures Enabled(s, Admit) ==> !s.stopped
    ensures s.wg == |Busy(s.live)| >= 0
  {
    InvReachable(s);
  }

  ghost predicate Quiet(s: State) {
    (s.stopper.Left? || s.stopper.Closed?) && s.stopper.byDone
  }

  lemma QuietEnded(s: State, id: Id)
    requires Inv(s) && Quiet(s) && id in s.live
    ensures s.live[id].run.Ended?
  {
    assert Busy(s.live) == {};
    assert id !in Busy(s.live);
  }

  lemma QuietStep(s: State, a: Action)
    requires Inv(s) && Quiet(s) && Enabled(s, a)
    ensures Quiet(Next(s, a)) && Next(s, a).log == s.log && Next(s, a).live.Keys == s.live.Keys
  {
    hide Conserved, QueueOK, LogOK, Inv;
    assert StopOK(s) by { InvStop(s); }
    if OfLive(a) { LiveKeys(s, a); QuietEnded(s, a.id); }
  }

  lemma InvStop(s: State)
    requires Inv(s)
    ensures StopOK(s)
  {}

  /** After StopAndWait has left because all runnables returned, none runs and none is ever started. */
  lemma {:induction false} StaysQuiet(s: State, acts: seq<Action>, t: State)
    requires Inv(s) && Quiet(s) && Steps(s, acts, t)
    ensures Quiet(t) && t.log == s.log && t.live.Keys == s.live.Keys
    ensures forall id :: id in t.live ==> t.live[id].run.Ended?
    decreases |acts|
  {
    hide Inv, Quiet, Enabled, Next;
    if acts == [] {
      forall id | id in t.live
        ensures t.live[id].run.Ended?
      {
        QuietEnded(t, id);
      }
    } else {
      QuietStep(s, acts[0]);
      InvStep(s, acts[0]);
      StaysQuiet(Next(s, acts[0]), acts[1..], t);
    }
  }

  // ----- the barrier of Start -----

  /** Queued before Start took its lock. */
  ghost predicate Initial(s: State, id: Id) {
    id in Unfed(s) || (Holds(s.recon, id) && s.recon.signal) || (id in s.live && s.live[id].signal)
  }

  lemma InitialStep(s: State, a: Action, id: Id)
    requires Inv(s) && Enabled(s, a) && Initial(s, id)
    ensures Initial(Next(s, a), id)
  {
    hide Inv, Enabled, Next, Initial, OfRecon, OfAdd, OfStart, OfLive, Placed;
    InvParts(s, id);
    if a.Drop? { DropsLate(s); }
    if OfRecon(a) || a.Feed? || a.LockAdd? || a.SendAdd? {
      InitialMoves(s, a, id);
    } else {
      InitialStays(s, a, id);
    }
  }

  lemma InitialStays(s: State, a: Action, id: Id)
    requires Enabled(s, a) && Initial(s, id) && (s.starter.NotBegun? <==> s.recon.Unborn?)
    requires !OfRecon(a) && !a.Feed? && !a.LockAdd? && !a.SendAdd?
    ensures Initial(Next(s, a), id)
  {
    hide Enabled, Next;
    Untouched(s, a);
    if !OfAdd(a) { UnfedSame(s, a); }
    if OfLive(a) { LiveKeys(s, a); }
  }

  lemma InvParts(s: State, id: Id)
    requires Inv(s)
    ensures QueueOK(s) && StopOK(s) && LiveOK(s.live) && Placed(s, id) && AwaitedOK(s, id)
    ensures s.starter.NotBegun? <==> s.recon.Unborn?
  {}

  lemma InitialMoves(s: State, a: Action, id: Id)
    requires Enabled(s, a) && Initial(s, id) && Placed(s, id)
    requires OfRecon(a) || a.Feed? || a.LockAdd? || a.SendAdd?
    requires a.Drop? ==> s.recon.Decided? && !s.recon.signal
    ensures Initial(Next(s, a), id)
  {
    hide Placed;
    if a.Feed? && id in Unfed(s) { assert id == s.starter.rest[0] || id in s.starter.rest[1..]; }
    if a.Admit? && id == s.recon.id { AdmitMoves(s, id); }
  }

  lemma AdmitMoves(s: State, id: Id)
    requires Enabled(s, Admit) && Initial(s, id) && Placed(s, id) && id == s.recon.id
    ensures s.recon.signal
  {}

  lemma {:induction false} StaysInitial(s: State, acts: seq<Action>, t: State, id: Id)
    requires Inv(s) && Initial(s, id) && Steps(s, acts, t)
    ensures Initial(t, id) && Inv(t)
    decreases |acts|
  {
    hide Inv, Initial, Enabled, Next;
    if acts != [] {
      InitialStep(s, acts[0], id);
      InvStep(s, acts[0]);
      StaysInitial(Next(s, acts[0]), acts[1..], t, id);
    }
  }

  lemma ReturnedPassed(s: State, id: Id)
    requires Inv(s) && Initial(s, id) && s.starter.Returned?
    ensures id in s.live && s.live[id].signal && s.live[id].check.Passed?
  {
    hide Inv;
    InvParts(s, id);
    assert Awaited(s, id) == 0;
  }

  /** Start returns only after every runnable that was queued before it has passed its check: none of
      them is ever dropped or left behind. */
  lemma StartBarrier(s: State, id: Id, acts: seq<Action>, t: State)
    requires Reachable(s) && id in s.startQueue && !Started(s)
    requires Steps(s, acts, t) && t.starter.Returned?
    ensures id in t.live && t.live[id].check.Passed?
  {
    InvReachable(s);
    StaysInitial(s, acts, t, id);
    ReturnedPassed(t, id);
  }

  /** A runnable that signals readiness never finds startReadyCh closed. */
  lemma NoLateSignal(s: State, id: Id)
    requires Reachable(s) && id in s.live && s.live[id].check.Signalling?
    ensures !s.starter.Returned?
  {
    InvReachable(s);
    hide Inv;
    InvParts(s, id);
    SignalAwaited(s, id);
  }

  ghost predicate NothingYet(s: State) {
    s.starter.NotBegun? ==> s.recon.Unborn? && s.live == map[] && s.log == []
  }

  lemma {:induction false} NothingSteps(s: State, acts: seq<Action>, t: State)
    requires NothingYet(s) && Steps(s, acts, t)
    ensures NothingYet(t)
    decreases |acts|
  {
    hide Enabled, Next, NothingYet;
    if acts != [] {
      NothingStep(s, acts[0]);
      NothingSteps(Next(s, acts[0]), acts[1..], t);
    }
  }

  lemma NothingStep(s: State, a: Action)
    requires NothingYet(s) && Enabled(s, a)
    ensures NothingYet(Next(s, a))
  {}

  /** Before Start is called nothing is started. */
  lemma NothingBeforeStart(s: State)
    requires Reachable(s) && s.log != []
    ensures !s.starter.NotBegun?
  {
    var acts :| Steps(Init, acts, s);
    NothingSteps(Init, acts, s);
  }

  // ----- when Start can return -----

  ghost predicate CheckFailed(s: State, id: Id) {
    id in s.live && s.live[id].signal && s.live[id].check.Failed?
  }

  lemma FailedStep(s: State, a: Action, id: Id)
    requires Inv(s) && CheckFailed(s, id) && Enabled(s, a)
    ensures CheckFailed(Next(s, a), id)
  {
    hide Inv, Enabled, Next, QueueOK, StopOK, LiveOK, Placed, AwaitedOK, OfAdd, OfStart, OfRecon;
    InvParts(s, id);
    Untouched(s, a);
    if OfLive(a) {
      LiveKeys(s, a);
      if a.id == id { FailedStays(s, a); }
    } else if a.Admit? {
      AdmitOther(s, id);
    }
  }

  lemma FailedStays(s: State, a: Action)
    requires LiveOK(s.live) && OfLive(a) && Enabled(s, a) && s.live[a.id].check.Failed?
    ensures Next(s, a).live[a.id].check.Failed?
  {}

  lemma AdmitOther(s: State, id: Id)
    requires Enabled(s, Admit) && Placed(s, id) && id in s.live
    ensures id in Next(s, Admit).live && Next(s, Admit).live[id] == s.live[id]
  {}

  /** Once the check of an initial runnable has failed, Start never returns, so StopAndWait never gets
      past its call of Start: the group cannot be stopped. */
  lemma {:induction false} FailedCheckHangs(s: State, id: Id, acts: seq<Action>, t: State)
    requires Inv(s) && CheckFailed(s, id) && Steps(s, acts, t)
    ensures !t.starter.Returned? && !t.stopped && (t.stopper.Idle? || t.stopper.CallingStart?)
    decreases |acts|
  {
    hide Inv, Enabled, Next;
    if acts == [] {
      InvParts(s, id);
      assert Awaited(s, id) > 0;
    } else {
      FailedStep(s, acts[0], id);
      InvStep(s, acts[0]);
      FailedCheckHangs(Next(s, acts[0]), id, acts[1..], t);
    }
  }

  ghost predicate NoneFailed(s: State) {
    forall id :: !CheckFailed(s, id)
  }

  function ReconRank(r: Recon): nat {
    if r.Holding? then 2 else if r.Decided? then 1 else 0
  }

  function CheckRank(c: Check): nat {
    match c
    case NotYet => 3
    case Checking => 2
    case Signalling => 1
    case _ => 0
  }

  /** How far Start is from returning. */
  function Remaining(s: State): (int, int, int) {
    match s.starter
    case NotBegun => (4, 0, 0)
    case Spawned => (3, 0, 0)
    case Feeding(rest) => (2, |rest|, ReconRank(s.recon))
    case Waiting =>
      (1, |s.startQueue|,
       if s.startQueue == [] then 0
       else
         var id := s.startQueue[0];
         if id in s.live then CheckRank(s.live[id].check) else 3 + ReconRank(s.recon))
    case Returned => (0, 0, 0)
  }

  predicate Less(x: (int, int, int), y: (int, int, int)) {
    x.0 < y.0 || (x.0 == y.0 && (x.1 < y.1 || (x.1 == y.1 && x.2 < y.2)))
  }

  /** The next step on the way of Start. */
  ghost function Advance(s: State): Action {
    match s.starter
    case NotBegun => BeginStart
    case Spawned => LockStart
    case Feeding(rest) =>
      if s.recon.Holding? then ReadStopped else if s.recon.Decided? then Admit
      else if rest == [] then UnlockStart else Feed
    case Waiting =>
      if s.startQueue == [] then FinishStart
      else
        var id := s.startQueue[0];
        if id !in s.live then (if s.recon.Holding? then ReadStopped else Admit)
        else if s.live[id].check.NotYet? then Arm(id)
        else if s.live[id].check.Checking? then CheckDone(id, true)
        else Signal(id)
    case Returned => FinishStart
  }

  lemma AdvanceFeeding(s: State)
    requires s.starter.Feeding? && !s.recon.Unborn? && !s.recon.Gone? && !s.chClosed
    requires s.recon.Decided? ==> !s.recon.stop
    ensures Enabled(s, Advance(s)) && Less(Remaining(Next(s, Advance(s))), Remaining(s))
    ensures OfLive(Advance(s)) ==> Advance(s).CheckDone? && Advance(s).ok
  {}

  lemma AdvanceWaiting(s: State)
    requires s.starter.Waiting? && (s.startQueue != [] ==> HeadOK(s, s.startQueue[0]))
    requires s.recon.Decided? ==> !s.recon.stop
    ensures Enabled(s, Advance(s)) && Less(Remaining(Next(s, Advance(s))), Remaining(s))
    ensures Advance(s).CheckDone? ==> Advance(s).ok
  {
    if s.startQueue != [] {
      var id := s.startQueue[0];
      if id in s.live && s.live[id].check.Signalling? {
        assert multiset(Remove(s.startQueue, id)) == multiset(s.startQueue) - multiset{id};
        assert |Remove(s.startQueue, id)| == |multiset(Remove(s.startQueue, id))|;
      }
    }
  }

  /** The head of the queue is held by the reconciler or is on its way to passing its check. */
  ghost predicate HeadOK(s: State, id: Id) {
    if id in s.live then
      && s.live[id].signal && !s.live[id].check.Passed? && !s.live[id].check.Failed?
      && (s.live[id].run.Born? <==> s.live[id].check.NotYet?)
    else Holds(s.recon, id)
  }

  lemma HeadIsOK(s: State)
    requires Inv(s) && NoneFailed(s) && s.starter.Waiting? && s.startQueue != []
    ensures HeadOK(s, s.startQueue[0])
  {
    hide Inv;
    InvParts(s, s.startQueue[0]);
    assert !CheckFailed(s, s.startQueue[0]);
    assert Awaited(s, s.startQueue[0]) > 0;
  }

  lemma AdvanceIs(s: State)
    requires Inv(s) && NoneFailed(s) && !s.starter.Returned?
    ensures Enabled(s, Advance(s)) && Less(Remaining(Next(s, Advance(s))), Remaining(s))
    ensures Advance(s).CheckDone? ==> Advance(s).ok
  {
    hide Inv;
    InvParts(s, 0);
    if s.starter.Waiting? {
      if s.startQueue != [] { HeadIsOK(s); }
      AdvanceWaiting(s);
    } else if s.starter.Feeding? {
      AdvanceFeeding(s);
    }
  }

  lemma NoneFailedStep(s: State, a: Action)
    requires Inv(s) && NoneFailed(s) && Enabled(s, a) && (a.CheckDone? ==> a.ok)
    ensures NoneFailed(Next(s, a))
  {
    forall id
      ensures !CheckFailed(Next(s, a), id)
    {
      assert !CheckFailed(s, id);
    }
  }

  /** The steps of Start, the reconciler and the runnables leave Add and StopAndWait where they are. */
  lemma AdvanceLeaves(s: State)
    requires Enabled(s, Advance(s))
    ensures var a, t := Advance(s), Next(s, Advance(s));
            && !a.CallAdd? && !a.BeginStop? && t.adders == s.adders && t.calls == s.calls
            && t.stopper == s.stopper && t.stopped == s.stopped
  {}

  /** No Add is called on the way. */
  ghost predicate Uncalled(acts: seq<Action>) {
    forall a :: a in acts ==> !a.CallAdd?
  }

  /** While no initial check has failed, Start can go on to return, whatever the others do. */
  lemma {:induction false} StartCanReturn(s: State) returns (acts: seq<Action>, t: State)
    requires Inv(s) && NoneFailed(s)
    ensures Steps(s, acts, t) && t.starter.Returned? && Inv(t)
    ensures Uncalled(acts) && t.adders == s.adders && t.stopper == s.stopper && t.stopped == s.stopped
    ensures forall a :: a in acts ==> !a.BeginStop?
    decreases Remaining(s).0, Remaining(s).1, Remaining(s).2
  {
    hide Inv, NoneFailed, Enabled, Next, Advance;
    if s.starter.Returned? {
      acts, t := [], s;
    } else {
      var a := Advance(s);
      AdvanceIs(s);
      AdvanceLeaves(s);
      InvStep(s, a);
      NoneFailedStep(s, a);
      var rest;
      rest, t := StartCanReturn(Next(s, a));
      acts := [a] + rest;
      assert acts[1..] == rest;
    }
  }

  /** Start can still return exactly when no initial check has failed so far. */
  lemma StartReturnsIff(s: State)
    requires Reachable(s)
    ensures (exists acts, t :: Steps(s, acts, t) && t.starter.Returned?) <==> NoneFailed(s)
  {
    InvReachable(s);
    if NoneFailed(s) {
      var acts, t := StartCanReturn(s);
    } else {
      var id :| CheckFailed(s, id);
      forall acts, t | Steps(s, acts, t)
        ensures !t.starter.Returned?
      {
        FailedCheckHangs(s, id, acts, t);
      }
    }
  }

  // ----- Add and a stop at the same time -----

  /** A goroutine is about to send on a closed channel, to close one again, or to take the WaitGroup
      below zero. */
  ghost predicate WouldPanic(s: State) {
    || (s.chClosed && exists id :: id in s.adders && s.adders[id].Sending?)
    || (s.chClosed && s.starter.Feeding? && s.starter.rest != [])
    || (s.starter.Returned? && exists id :: id in s.live && s.live[id].check.Signalling?)
    || (s.chClosed && s.stopper.Left?)
    || (s.wg <= 0 && exists id :: id in s.live && s.live[id].run.Running?)
  }

  /** The one thing that can go wrong is an Add that still sends when StopAndWait closes ch. */
  lemma PanicIsAdd(s: State)
    requires Reachable(s)
    ensures WouldPanic(s) <==> s.chClosed && exists id :: id in s.adders && s.adders[id].Sending?
  {
    InvReachable(s);
    if id :| id in s.live && s.live[id].check.Signalling? {
      NoLateSignal(s, id);
    }
    forall id | id in s.live && s.live[id].run.Running?
      ensures s.wg > 0
    {
      assert id in Busy(s.live);
    }
  }

  lemma EnteredStep(s: State, a: Action, id: Id)
    requires s.stopped && Enabled(s, a) && (id in s.adders ==> s.adders[id].Entering?)
    ensures Next(s, a).stopped && (id in Next(s, a).adders ==> Next(s, a).adders[id].Entering?)
  {}

  /** Such an Add had looked at stopped before it was set; one that looks later never gets to send. */
  lemma {:induction false} LateAddIsHarmless(s: State, id: Id, acts: seq<Action>, t: State)
    requires s.stopped && (id in s.adders ==> s.adders[id].Entering?) && Steps(s, acts, t)
    ensures id in t.adders ==> !t.adders[id].Sending?
    decreases |acts|
  {
    hide Enabled, Next;
    if acts != [] {
      EnteredStep(s, acts[0], id);
      LateAddIsHarmless(Next(s, acts[0]), id, acts[1..], t);
    }
  }

  /** One more step of a run from s without a further call of Add. */
  lemma OneMore(s: State, acts: seq<Action>, t: State, a: Action) returns (more: seq<Action>, u: State)
    requires Steps(s, acts, t) && Uncalled(acts) && Inv(t) && Enabled(t, a) && !a.CallAdd?
    ensures Steps(s, more, u) && Uncalled(more) && u == Next(t, a) && Inv(u)
  {
    hide Inv, Enabled, Next;
    more, u := acts + [a], Next(t, a);
    StepsSnoc(s, acts, t, a);
    InvStep(t, a);
  }

  /** Once Start has returned, an Add that has got past stopped comes to send. */
  lemma AddComesToSend(s: State, id: Id) returns (acts: seq<Action>, t: State)
    requires Inv(s) && s.starter.Returned? && id in s.adders && (s.adders[id].Entering? ==> !s.stopped)
    ensures Steps(s, acts, t) && Uncalled(acts) && Inv(t) && t.starter.Returned?
    ensures id in t.adders && t.adders[id].Sending? && t.stopper == s.stopper && t.stopped == s.stopped
  {
    hide Inv, Steps;
    acts, t := NoStep(s);
    if t.adders[id].Entering? {
      acts, t := OneMore(s, acts, t, LookStopped(id));
    }
    if t.adders[id].Accepted? {
      acts, t := OneMore(s, acts, t, LockAdd(id));
    }
  }

  lemma NoStep(s: State) returns (acts: seq<Action>, t: State)
    ensures acts == [] && t == s && Steps(s, acts, t) && Uncalled(acts)
  {
    acts, t := [], s;
  }

  /** Start has returned and the Add of id sends, in a run from s. */
  ghost predicate Caught(s: State, acts: seq<Action>, t: State, id: Id) {
    Steps(s, acts, t) && Uncalled(acts) && Inv(t) && t.starter.Returned? && id in t.adders && t.adders[id].Sending?
  }

  /** The next step of StopAndWait once Start has returned; its context may expire at once. */
  ghost function StopNext(s: State): Action {
    match s.stopper
    case Idle => BeginStop
    case CallingStart => StartDone
    case Flagging => if s.recon.Decided? then Admit else SetStopped
    case WaitAll => LeaveCtx
    case _ => CloseCh
  }

  ghost function StopRank(s: State): nat {
    match s.stopper
    case Idle => 6
    case CallingStart => 5
    case Flagging => if s.recon.Decided? then 4 else 3
    case WaitAll => 2
    case Left(_) => 1
    case Closed(_) => 0
  }

  lemma StopAdvances(s: State)
    requires StopOK(s) && s.starter.Returned? && !s.chClosed
    ensures var a := StopNext(s);
            && Enabled(s, a) && !a.CallAdd? && StopRank(Next(s, a)) < StopRank(s)
            && Next(s, a).starter.Returned? && Next(s, a).adders == s.adders
  {}

  /** StopAndWait can then always close ch. */
  lemma {:induction false} StopCanClose(s: State, acts: seq<Action>, t: State, id: Id)
    returns (more: seq<Action>, u: State)
    requires Caught(s, acts, t, id)
    ensures Caught(s, more, u, id) && u.chClosed
    decreases StopRank(t)
  {
    hide Inv, Enabled, Next, Steps, Uncalled, StopOK, StopNext, StopRank;
    more, u := acts, t;
    if !t.chClosed {
      InvStop(t);
      StopAdvances(t);
      more, u := OneMore(s, acts, t, StopNext(t));
      more, u := StopCanClose(s, more, u, id);
    }
  }

  lemma {:induction false} NoNewAdders(s: State, acts: seq<Action>, t: State)
    requires Steps(s, acts, t) && Uncalled(acts)
    ensures t.adders.Keys <= s.adders.Keys
    decreases |acts|
  {
    hide Enabled, Next;
    if acts != [] {
      assert acts[0] in acts;
      AddersShrink(s, acts[0]);
      NoNewAdders(Next(s, acts[0]), acts[1..], t);
    }
  }

  lemma AddersShrink(s: State, a: Action)
    requires Enabled(s, a) && !a.CallAdd?
    ensures Next(s, a).adders.Keys <= s.adders.Keys
  {}

  /** An Add under way that has not been, and will not be, turned away. */
  ghost predicate InTime(s: State, id: Id) {
    id in s.adders && (s.adders[id].Entering? ==> !s.stopped)
  }

  ghost predicate CanPanic(s: State) {
    exists acts, t :: Steps(s, acts, t) && Uncalled(acts) && WouldPanic(t)
  }

  /** Without a further call of Add the group can still come to panic exactly when no initial check has
      failed and some Add is under way that looked at stopped, or still can, before it is set. */
  lemma AddRaceIff(s: State)
    requires Reachable(s)
    ensures CanPanic(s) <==> NoneFailed(s) && exists id :: InTime(s, id)
  {
    InvReachable(s);
    hide Inv, Enabled, Next, WouldPanic, NoneFailed, Uncalled;
    if CanPanic(s) {
      var acts, t :| Steps(s, acts, t) && Uncalled(acts) && WouldPanic(t);
      PanicNeeds(s, acts, t);
    }
    if NoneFailed(s) && exists id :: InTime(s, id) {
      var id :| InTime(s, id);
      var acts, t := PanicComes(s, id);
      assert Steps(s, acts, t) && Uncalled(acts) && WouldPanic(t);
    }
  }

  lemma PanicComes(s: State, id: Id) returns (acts: seq<Action>, u: State)
    requires Inv(s) && NoneFailed(s) && InTime(s, id)
    ensures Steps(s, acts, u) && Uncalled(acts) && WouldPanic(u)
  {
    hide Inv, Enabled, Next, NoneFailed, Steps, Uncalled;
    var first, t := StartCanReturn(s);
    var tail, v := AddComesToSend(t, id);
    StepsOn(s, first, t, tail, v);
    UncalledJoin(first, tail);
    acts, u := StopCanClose(s, first + tail, v, id);
  }

  lemma UncalledJoin(a: seq<Action>, b: seq<Action>)
    requires Uncalled(a) && Uncalled(b)
    ensures Uncalled(a + b)
  {}

  lemma PanicNeeds(s: State, acts: seq<Action>, t: State)
    requires Reachable(s) && Steps(s, acts, t) && Uncalled(acts) && WouldPanic(t)
    ensures NoneFailed(s) && exists id :: InTime(s, id)
  {
    InvReachable(s);
    hide Inv, Enabled, Next;
    var start :| Steps(Init, start, s);
    StepsOn(Init, start, s, acts, t);
    PanicIsAdd(t);
    var id :| id in t.adders && t.adders[id].Sending?;
    InvReachable(t);
    InvStop(t);
    if bad :| CheckFailed(s, bad) {
      FailedCheckHangs(s, bad, acts, t);
    }
    NoNewAdders(s, acts, t);
    if !InTime(s, id) {
      LateAddIsHarmless(s, id, acts, t);
    }
  }

  /** Start has returned with nothing queued, and an Add has found it so. */
  ghost function CaughtSending(id: Id): State {
    State(map[id := Sending], [], Returned, Recv, map[], map[], {}, 0, false, false, Idle, {id}, [])
  }

  const StartedEmpty: State := State(map[], [], Returned, Recv, map[], map[], {}, 0, false, false, Idle, {}, [])

  lemma StartEmpty()
    ensures Reachable(StartedEmpty)
  {
    assert Steps(Init, [], Init);
    var s := Then(Init, BeginStart);
    s := Then(s, LockStart);
    s := Then(s, UnlockStart);
    s := Then(s, FinishStart);
    assert s == StartedEmpty;
  }

  lemma CatchSending(id: Id)
    ensures Reachable(CaughtSending(id))
  {
    StartEmpty();
    hide Reachable;
    var s := Then(StartedEmpty, CallAdd(id));
    s := Then(s, LookStopped(id));
    s := Then(s, LockAdd(id));
    assert s.adders == map[id := Sending] && s.calls == {id};
    assert s == CaughtSending(id);
  }

  /** An Add that overlaps StopAndWait can be caught sending on the closed channel. */
  lemma AddRace(id: Id) returns (s: State)
    ensures Reachable(s) && WouldPanic(s)
  {
    hide Reachable;
    CatchSending(id);
    s := Then(CaughtSending(id), BeginStop);
    s := Then(s, StartDone);
    s := Then(s, SetStopped);
    s := Then(s, LeaveDone);
    s := Then(s, CloseCh);
    assert id in s.adders && s.adders[id].Sending?;
  }
}
