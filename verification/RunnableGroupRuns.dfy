/** What a runnable group can always still do: start what was added in time, and stop. */
module RunnableGroupRuns {
  import opened RunnableGroup
  import opened RunnableGroupSafety

  // ----- continuations -----

  ghost predicate Leads(s: State, t: State) {
    exists acts :: Steps(s, acts, t)
  }

  /** StopAndWait is not called on the way. */
  ghost predicate Unstopped(acts: seq<Action>) {
    forall a :: a in acts ==> !a.BeginStop?
  }

  ghost predicate LeadsOn(s: State, t: State) {
    exists acts :: Steps(s, acts, t) && Unstopped(acts)
  }

  lemma LeadsSelf(s: State)
    ensures LeadsOn(s, s)
  {
    assert Steps(s, [], s);
  }

  lemma LeadsTrans(s: State, t: State, u: State)
    ensures LeadsOn(s, t) && LeadsOn(t, u) ==> LeadsOn(s, u)
    ensures Leads(s, t) && Leads(t, u) ==> Leads(s, u)
    ensures LeadsOn(s, t) ==> Leads(s, t)
  {
    if LeadsOn(s, t) && LeadsOn(t, u) {
      var a :| Steps(s, a, t) && Unstopped(a);
      var b :| Steps(t, b, u) && Unstopped(b);
      StepsOn(s, a, t, b, u);
    }
    if Leads(s, t) && Leads(t, u) {
      var a :| Steps(s, a, t);
      var b :| Steps(t, b, u);
      StepsOn(s, a, t, b, u);
    }
  }

  /** While stopped is not set nobody has been turned away. */
  ghost predicate TurnedOK(s: State) {
    !s.stopped ==> s.dropped == map[] && s.rejected == {}
  }

  ghost predicate Good(s: State) {
    Inv(s) && TurnedOK(s)
  }

  lemma TurnedStep(s: State, a: Action)
    requires StopOK(s) && TurnedOK(s) && Enabled(s, a)
    ensures TurnedOK(Next(s, a))
  {}

  lemma GoodStep(s: State, a: Action)
    requires Good(s) && Enabled(s, a)
    ensures Good(Next(s, a))
  {
    hide Inv, TurnedOK, Enabled, Next;
    InvStop(s);
    InvStep(s, a);
    TurnedStep(s, a);
  }

  lemma {:induction false} GoodSteps(s: State, acts: seq<Action>, t: State)
    requires Good(s) && Steps(s, acts, t)
    ensures Good(t)
    decreases |acts|
  {
    hide Good, Enabled, Next;
    if acts != [] {
      GoodStep(s, acts[0]);
      GoodSteps(Next(s, acts[0]), acts[1..], t);
    }
  }

  lemma GoodReachable(s: State)
    requires Reachable(s)
    ensures Good(s)
  {
    assert Steps(Init, [], Init);
    InvReachable(Init);
    var acts :| Steps(Init, acts, s);
    GoodSteps(Init, acts, s);
  }

  lemma Step(s: State, t: State, a: Action) returns (u: State)
    requires LeadsOn(s, t) && Good(t) && Enabled(t, a) && !a.BeginStop?
    ensures LeadsOn(s, u) && Good(u) && u == Next(t, a)
  {
    hide Good, Enabled, Next;
    u := Next(t, a);
    var acts :| Steps(s, acts, t) && Unstopped(acts);
    StepsSnoc(s, acts, t, a);
    GoodStep(t, a);
  }

  // ----- an added runnable can be started -----

  lemma GoodParts(s: State, id: Id)
    requires Good(s)
    ensures StopOK(s) && TurnedOK(s) && LiveOK(s.live) && Placed(s, id) && Logged(s, id)
    ensures s.starter.NotBegun? <==> s.recon.Unborn?
  {
    InvParts(s, id);
  }

  /** Until Start has fed the queue to the reconciler, its next step is possible, whatever the checks say. */
  lemma FeedAdvances(s: State)
    requires Good(s) && !s.stopped && !s.starter.Waiting? && !s.starter.Returned?
    ensures Enabled(s, Advance(s)) && Less(Remaining(Next(s, Advance(s))), Remaining(s)) && !Advance(s).BeginStop?
  {
    hide Good;
    GoodParts(s, 0);
    if s.starter.Feeding? { AdvanceFeeding(s); }
  }

  lemma {:induction false} FeedsOut(s: State) returns (t: State)
    requires Good(s) && !s.stopped
    ensures LeadsOn(s, t) && Good(t) && t.adders == s.adders && t.calls == s.calls && !t.stopped
    ensures t.starter.Waiting? || t.starter.Returned?
    decreases Remaining(s).0, Remaining(s).1, Remaining(s).2
  {
    hide Good, Enabled, Next, Advance;
    LeadsSelf(s);
    if s.starter.Waiting? || s.starter.Returned? {
      t := s;
    } else {
      FeedAdvances(s);
      AdvanceLeaves(s);
      var m := Step(s, s, Advance(s));
      t := FeedsOut(m);
      LeadsTrans(s, m, t);
    }
  }

  /** Then the reconciler can come to receive. */
  lemma Receives(s: State) returns (t: State)
    requires Good(s) && !s.stopped && (s.starter.Waiting? || s.starter.Returned?)
    ensures LeadsOn(s, t) && Good(t) && t.recon.Recv? && t.adders == s.adders && t.calls == s.calls
    ensures !t.stopped && t.starter == s.starter && s.live.Keys <= t.live.Keys
    ensures forall id :: Holds(s.recon, id) ==> id in t.live
  {
    LeadsSelf(s);
    assert StopOK(s) && !s.recon.Unborn? by { GoodParts(s, 0); }
    hide Good, LeadsOn;
    t := s;
    if t.recon.Holding? { t := Step(s, t, ReadStopped); }
    if t.recon.Decided? { t := Step(s, t, Admit); }
  }

  lemma Settled(s: State, id: Id)
    requires Good(s) && !s.stopped && s.recon.Recv? && (s.starter.Waiting? || s.starter.Returned?) && id in s.calls
    ensures id in s.live || id in s.adders
  {
    hide Inv;
    GoodParts(s, id);
  }

  /** An Add that is under way, with the reconciler receiving, can hand over its runnable. */
  lemma AddSends(s: State, id: Id) returns (t: State)
    requires Good(s) && !s.stopped && s.recon.Recv? && (s.starter.Waiting? || s.starter.Returned?) && id in s.adders
    ensures LeadsOn(s, t) && Good(t) && !t.stopped && t.recon == Holding(id, false)
    ensures t.starter.Waiting? || t.starter.Returned?
  {
    LeadsSelf(s);
    assert !s.chClosed by { GoodParts(s, 0); }
    hide Good, LeadsOn;
    t := s;
    if t.adders[id].Entering? { t := Step(s, t, LookStopped(id)); }
    if t.adders[id].Accepted? { t := Step(s, t, LockAdd(id)); }
    t := Step(s, t, SendAdd(id));
  }

  lemma GoesLive(s: State, id: Id) returns (t: State)
    requires Good(s) && !s.stopped && id in s.calls
    ensures LeadsOn(s, t) && Good(t) && id in t.live
  {
    hide Good, LeadsOn;
    var a := FeedsOut(s);
    t := Receives(a);
    LeadsTrans(s, a, t);
    Settled(t, id);
    if id !in t.live {
      var b := AddSends(t, id);
      var d := Receives(b);
      LeadsTrans(t, b, d);
      LeadsTrans(s, t, d);
      t := d;
    }
  }

  /** A live runnable can be started, or has been. */
  lemma LiveRuns(s: State, id: Id) returns (t: State)
    requires Good(s) && id in s.live
    ensures LeadsOn(s, t) && id in t.log
  {
    LeadsSelf(s);
    assert Logged(s, id) by { GoodParts(s, id); }
    hide Good, LeadsOn;
    t := s;
    if t.live[id].run.Born? { t := Step(s, t, Arm(id)); }
    if t.live[id].run.Armed? { t := Step(s, t, CallRun(id)); }
  }

  ghost predicate CanRun(s: State, id: Id) {
    exists t :: Leads(s, t) && id in t.log
  }

  /** Without being stopped first. */
  ghost predicate CanRunOn(s: State, id: Id) {
    exists t :: LeadsOn(s, t) && id in t.log
  }

  lemma TooLateStep(s: State, a: Action, id: Id)
    requires StopOK(s) && s.stopped && id !in s.live && Enabled(s, a)
    ensures Next(s, a).stopped && id !in Next(s, a).live
  {}

  lemma {:induction false} TooLate(s: State, acts: seq<Action>, t: State, id: Id)
    requires Good(s) && s.stopped && id !in s.live && Steps(s, acts, t)
    ensures id !in t.log
    decreases |acts|
  {
    hide Good, Enabled, Next, LogOK;
    GoodParts(s, id);
    if acts != [] {
      TooLateStep(s, acts[0], id);
      GoodStep(s, acts[0]);
      TooLate(Next(s, acts[0]), acts[1..], t, id);
    }
  }

  lemma RunsOn(s: State, id: Id) returns (u: State)
    requires Good(s) && id in s.calls && (id in s.live || !s.stopped)
    ensures LeadsOn(s, u) && id in u.log
  {
    LeadsSelf(s);
    hide Good, LeadsOn;
    var t := s;
    if id !in s.live { t := GoesLive(s, id); }
    u := LiveRuns(t, id);
    LeadsTrans(s, t, u);
  }

  /** What Add was called with can still be started, and without a stop in between, exactly if it is live or
      stopped is not set: also after a failed check, and whether it was added before Start or after. */
  lemma RunsIff(s: State, id: Id)
    requires Reachable(s) && id in s.calls
    ensures CanRun(s, id) <==> id in s.live || !s.stopped
    ensures CanRunOn(s, id) <==> id in s.live || !s.stopped
  {
    GoodReachable(s);
    hide Good;
    if id in s.live || !s.stopped {
      var u := RunsOn(s, id);
      LeadsTrans(s, u, u);
    } else {
      forall t | Leads(s, t)
        ensures id !in t.log
      {
        var acts :| Steps(s, acts, t);
        TooLate(s, acts, t, id);
      }
      forall t
        ensures LeadsOn(s, t) ==> Leads(s, t)
      {
        LeadsTrans(s, t, t);
      }
    }
  }

  /** A check that has not answered can fail. */
  lemma CheckCanFail(s: State, id: Id) returns (t: State)
    requires Reachable(s) && id in s.live && (s.live[id].check.NotYet? || s.live[id].check.Checking?)
    ensures Leads(s, t) && id in t.live && t.live[id].check.Failed?
  {
    GoodReachable(s);
    LeadsSelf(s);
    assert LiveOK(s.live) by { GoodParts(s, id); }
    hide Good, LeadsOn;
    t := s;
    if t.live[id].check.NotYet? { t := Step(s, t, Arm(id)); }
    t := Step(s, t, CheckDone(id, false));
    LeadsTrans(s, t, t);
  }

  // ----- StopAndWait can come to its end -----

  /** The next step of a live runnable that has not returned. */
  ghost function RunNext(r: Run, id: Id): Action {
    if r.Born? then Arm(id) else if r.Armed? then CallRun(id) else EndRun(id)
  }

  function RunRank(r: Run): nat {
    match r
    case Born => 3
    case Armed => 2
    case Running => 1
    case Ended => 0
  }

  lemma RunAdvances(s: State, id: Id)
    requires id in s.live && !s.live[id].run.Ended?
    ensures var a := RunNext(s.live[id].run, id);
            && Enabled(s, a) && !a.BeginStop?
            && var t := Next(s, a);
               && t.stopper == s.stopper && t.live.Keys == s.live.Keys
               && RunRank(t.live[id].run) < RunRank(s.live[id].run)
               && forall k :: k in s.live && k != id ==> t.live[k] == s.live[k]
  {}

  /** One runnable more can return. */
  lemma {:induction false} OneEnds(s: State, id: Id) returns (t: State)
    requires Good(s) && s.stopper.WaitAll? && id in s.live
    ensures LeadsOn(s, t) && Good(t) && t.stopper.WaitAll? && Busy(t.live) == Busy(s.live) - {id}
    decreases RunRank(s.live[id].run)
  {
    LeadsSelf(s);
    hide Good, LeadsOn, Enabled, Next;
    if s.live[id].run.Ended? {
      t := s;
    } else {
      RunAdvances(s, id);
      var m := Step(s, s, RunNext(s.live[id].run, id));
      t := OneEnds(m, id);
      LeadsTrans(s, m, t);
    }
  }

  lemma BusyIsLive(s: State, id: Id)
    requires id in Busy(s.live)
    ensures id in s.live
  {}

  lemma {:induction false} AllEnd(s: State) returns (t: State)
    requires Good(s) && s.stopper.WaitAll?
    ensures LeadsOn(s, t) && Good(t) && t.stopper.WaitAll? && t.wg == 0
    decreases Busy(s.live)
  {
    LeadsSelf(s);
    assert s.wg == |Busy(s.live)|;
    hide Good, Busy;
    if id :| id in Busy(s.live) {
      assert id in s.live by { BusyIsLive(s, id); }
      var m := OneEnds(s, id);
      t := AllEnd(m);
      LeadsTrans(s, m, t);
    } else {
      assert Busy(s.live) == {};
      t := s;
    }
  }

  /** From its wait StopAndWait can always leave because all runnables have returned. */
  lemma WaitCanEnd(s: State) returns (t: State)
    requires Good(s) && s.stopper.WaitAll?
    ensures LeadsOn(s, t) && Good(t) && t.stopper == Left(true)
  {
    hide Good, LeadsOn;
    var m := AllEnd(s);
    t := Step(s, m, LeaveDone);
  }

  lemma StopNextEarly(s: State)
    requires s.stopper.CallingStart? || s.stopper.Flagging?
    requires Enabled(s, StopNext(s))
    ensures !StopNext(s).BeginStop?
    ensures Next(s, StopNext(s)).stopper.Flagging? || Next(s, StopNext(s)).stopper.WaitAll?
  {}

  lemma {:induction false} StopCanWait(s: State) returns (t: State)
    requires Good(s) && s.starter.Returned? && (s.stopper.CallingStart? || s.stopper.Flagging? || s.stopper.WaitAll?)
    ensures LeadsOn(s, t) && Good(t) && t.stopper.WaitAll?
    decreases StopRank(s)
  {
    LeadsSelf(s);
    assert StopOK(s) by { GoodParts(s, 0); }
    hide Good, LeadsOn, Enabled, Next, StopNext, StopRank;
    if s.stopper.WaitAll? {
      t := s;
    } else {
      StopAdvances(s);
      StopNextEarly(s);
      var m := Step(s, s, StopNext(s));
      t := StopCanWait(m);
      LeadsTrans(s, m, t);
    }
  }

  lemma StartReturnsOn(s: State) returns (t: State)
    requires Good(s) && NoneFailed(s)
    ensures LeadsOn(s, t) && Good(t) && t.starter.Returned? && t.stopper == s.stopper
  {
    var acts;
    acts, t := StartCanReturn(s);
    GoodSteps(s, acts, t);
  }

  /** Once called, StopAndWait can come to its end, with all runnables returned if it has not left already. */
  lemma StopCanEnd(s: State) returns (t: State)
    requires Good(s) && NoneFailed(s) && !s.stopper.Idle?
    ensures LeadsOn(s, t) && Good(t)
    ensures t.stopper == Closed(if s.stopper.Left? || s.stopper.Closed? then s.stopper.byDone else true)
  {
    LeadsSelf(s);
    hide Good, LeadsOn, NoneFailed;
    t := s;
    if s.stopper.CallingStart? || s.stopper.Flagging? || s.stopper.WaitAll? {
      t := StartReturnsOn(s);
      var m := StopCanWait(t);
      LeadsTrans(s, t, m);
      t := WaitCanEnd(m);
      LeadsTrans(s, m, t);
    }
    if t.stopper.Left? { t := Step(s, t, CloseCh); }
  }

  ghost predicate CanStop(s: State) {
    exists t :: Leads(s, t) && t.stopper == Closed(true)
  }

  lemma GivenUpStep(s: State, a: Action)
    requires (s.stopper.Left? || s.stopper.Closed?) && !s.stopper.byDone && Enabled(s, a)
    ensures (Next(s, a).stopper.Left? || Next(s, a).stopper.Closed?) && !Next(s, a).stopper.byDone
  {}

  lemma {:induction false} GivenUpStays(s: State, acts: seq<Action>, t: State)
    requires (s.stopper.Left? || s.stopper.Closed?) && !s.stopper.byDone && Steps(s, acts, t)
    ensures (t.stopper.Left? || t.stopper.Closed?) && !t.stopper.byDone
    decreases |acts|
  {
    hide Enabled, Next;
    if acts != [] {
      GivenUpStep(s, acts[0]);
      GivenUpStays(Next(s, acts[0]), acts[1..], t);
    }
  }

  /** The group can still be stopped with all its runnables returned exactly if no initial check has failed
      and no wait has been given up. */
  lemma StopsIff(s: State)
    requires Reachable(s)
    ensures CanStop(s) <==> NoneFailed(s) && !((s.stopper.Left? || s.stopper.Closed?) && !s.stopper.byDone)
  {
    GoodReachable(s);
    hide Good, NoneFailed;
    if NoneFailed(s) && !((s.stopper.Left? || s.stopper.Closed?) && !s.stopper.byDone) {
      var m := BegunStop(s);
      var t := StopCanEnd(m);
      LeadsTrans(m, t, t);
      LeadsTrans(s, m, t);
    }
    if CanStop(s) {
      var t :| Leads(s, t) && t.stopper == Closed(true);
      var acts :| Steps(s, acts, t);
      if (s.stopper.Left? || s.stopper.Closed?) && !s.stopper.byDone { GivenUpStays(s, acts, t); }
      StopNeedsChecks(s, acts, t);
    }
  }

  lemma BegunStop(s: State) returns (t: State)
    requires Good(s) && NoneFailed(s)
    ensures Leads(s, t) && Good(t) && NoneFailed(t) && !t.stopper.Idle?
    ensures !s.stopper.Idle? ==> t == s
    ensures s.stopper.Idle? ==> t.stopper.CallingStart?
  {
    hide Good;
    if s.stopper.Idle? {
      t := Next(s, BeginStop);
      assert Steps(t, [BeginStop][1..], t);
      assert Steps(s, [BeginStop], t);
      GoodStep(s, BeginStop);
      assert forall id :: CheckFailed(t, id) <==> CheckFailed(s, id);
    } else {
      t := s;
      assert Steps(s, [], s);
    }
  }

  lemma StopNeedsChecks(s: State, acts: seq<Action>, t: State)
    requires Good(s) && Steps(s, acts, t) && t.stopper.Closed?
    ensures NoneFailed(s)
  {
    hide Inv;
    if id :| CheckFailed(s, id) {
      FailedCheckHangs(s, id, acts, t);
    }
  }

  // ----- the reconciler can come to its end -----

  ghost function LastNext(r: Recon): Action {
    if r.Holding? then ReadStopped else if r.Decided? then Drop else EndReconcile
  }

  function LastRank(r: Recon): nat {
    if r.Holding? then 3 else if r.Decided? then 2 else if r.Recv? then 1 else 0
  }

  lemma LastAdvances(s: State)
    requires s.chClosed && s.stopped && StopOK(s) && (s.recon.Holding? || s.recon.Decided? || s.recon.Recv?)
    ensures var a := LastNext(s.recon);
            && Enabled(s, a) && !a.BeginStop? && Next(s, a).chClosed && LastRank(Next(s, a).recon) < LastRank(s.recon)
  {}

  lemma {:induction false} ReconcilerGoes(s: State) returns (t: State)
    requires Good(s) && s.chClosed
    ensures LeadsOn(s, t) && t.recon.Gone?
    decreases LastRank(s.recon)
  {
    LeadsSelf(s);
    assert StopOK(s) && !s.recon.Unborn? by { GoodParts(s, 0); }
    hide Good, LeadsOn, Enabled, Next;
    if s.recon.Gone? {
      t := s;
    } else {
      LastAdvances(s);
      var m := Step(s, s, LastNext(s.recon));
      t := ReconcilerGoes(m);
      LeadsTrans(s, m, t);
    }
  }

  /** Once ch is closed, the reconciler can end, and drops what it holds. */
  lemma ReconcilerEnds(s: State) returns (t: State)
    requires Reachable(s) && s.chClosed
    ensures Leads(s, t) && t.recon.Gone?
  {
    GoodReachable(s);
    t := ReconcilerGoes(s);
    LeadsTrans(s, t, t);
  }
}
