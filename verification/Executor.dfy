/** The concurrent executor of a dag as a transition system.

    Each vertex that a traversal schedules gets a worker; each dependency edge has an unbuffered
    channel from the worker of its source to that of its target; each worker reports to the main
    walk on a channel of its own. A step of any goroutine is an action; Enabled and Next give the
    transition relation, and every interleaving is a sequence of actions. */
module Executor {
  import opened Graphs

  /** atomic says whether isVisted and the setting of visited happen as one step. In the code they
      are two critical sections, so atomic is false there. */
  datatype Config = Config(vs: set<Vertex>, es: Edges, from: Vertex, atomic: bool)

  /** A traversal goroutine: about to look at visited, or about to set it. */
  datatype Token = Check(v: Vertex) | Mark(v: Vertex)

  /** Where a worker is: choosing a dependency or waiting on one, running the vertex function,
      choosing a dependent, offering it the result, closing its channel, reporting to the main
      walk, closing that channel, finished; or gone after it read from a closed channel. */
  datatype Phase =
    | Collect(todo: set<Vertex>)
    | Await(todo: set<Vertex>, dep: Vertex)
    | Running
    | Emit(ok: bool, todo: set<Vertex>)
    | Offer(ok: bool, todo: set<Vertex>, to: Vertex)
    | CloseDep(ok: bool, todo: set<Vertex>, to: Vertex)
    | Report(ok: bool)
    | CloseDone(ok: bool)
    | Finished(ok: bool)
    | GaveUp

  datatype Worker = Worker(v: Vertex, phase: Phase)

  /** The main walk: not begun, choosing the next vertex to wait for, waiting for it, returned. */
  datatype Main =
    | Idle
    | Pick(todo: set<Vertex>)
    | Listen(todo: set<Vertex>, v: Vertex)
    | Returned(success: bool)

  datatype Event = Started(v: Vertex) | Ended(v: Vertex, ok: bool)

  /** closed and doneClosed are the closed channels. owner (which worker began the function of a
      vertex) and log are history: no step depends on them. */
  datatype State = State(
    visited: set<Vertex>,
    tokens: seq<Token>,
    workers: seq<Worker>,
    closed: set<Edge>,
    doneClosed: set<Vertex>,
    main: Main,
    cancelled: bool,
    owner: map<Vertex, nat>,
    log: seq<Event>)

  datatype Action =
    | Begin(kids: seq<Vertex>)
    | Look(k: nat, kids: seq<Vertex>)
    | Visit(k: nat, kids: seq<Vertex>)
    | Choose(i: nat, dep: Vertex)
    | GiveUp(i: nat)
    | RunFn(i: nat)
    | EndFn(i: nat, ok: bool)
    | ChooseTo(i: nat, to: Vertex)
    | Send(i: nat, j: nat)
    | CloseCh(i: nat)
    | SentAll(i: nat)
    | SendMain(i: nat)
    | CloseMain(i: nat)
    | MainChoose(v: Vertex)
    | MainAll
    | MainClosed
    | MainCancelled
    | Cancel

  const Init: State := State({}, [], [], {}, {}, Idle, false, map[], [])

  /** kids enumerates the set vs, in any order. */
  ghost predicate Lists(kids: seq<Vertex>, vs: set<Vertex>) {
    |kids| == |vs| && forall x :: x in kids <==> x in vs
  }

  function Spawn(kids: seq<Vertex>): (ts: seq<Token>)
    ensures |ts| == |kids|
    ensures forall i :: 0 <= i < |kids| ==> ts[i] == Check(kids[i])
  {
    seq(|kids|, i requires 0 <= i < |kids| => Check(kids[i]))
  }

  /** Worker i offers its result on the open channel on which worker j waits. */
  ghost predicate CanSend(s: State, i: nat, j: nat) {
    && i < |s.workers| && j < |s.workers|
    && s.workers[i].phase.Offer? && s.workers[j].phase.Await?
    && s.workers[i].phase.to == s.workers[j].v && s.workers[j].phase.dep == s.workers[i].v
    && Edge(s.workers[i].v, s.workers[j].v) !in s.closed
  }

  ghost function AfterSend(s: State, i: nat, j: nat): seq<Worker>
    requires CanSend(s, i, j)
  {
    var p := s.workers[i].phase;
    s.workers[i := Worker(s.workers[i].v, CloseDep(p.ok, p.todo, p.to))]
             [j := Worker(s.workers[j].v, Collect(s.workers[j].phase.todo))]
  }

  ghost predicate Enabled(c: Config, s: State, a: Action) {
    match a
    case Begin(kids) => s.main.Idle? && Lists(kids, Downs(c.es, c.from))
    case Look(k, kids) =>
      && k < |s.tokens| && s.tokens[k].Check?
      && (c.atomic ==> s.tokens[k].v in s.visited)
      && Lists(kids, Downs(c.es, s.tokens[k].v))
    case Visit(k, kids) =>
      && k < |s.tokens|
      && (s.tokens[k].Mark? || (c.atomic && s.tokens[k].v !in s.visited))
      && Lists(kids, Downs(c.es, s.tokens[k].v))
    case Choose(i, dep) => i < |s.workers| && s.workers[i].phase.Collect? && dep in s.workers[i].phase.todo
    case GiveUp(i) =>
      && i < |s.workers| && s.workers[i].phase.Await?
      && Edge(s.workers[i].phase.dep, s.workers[i].v) in s.closed
    case RunFn(i) => i < |s.workers| && s.workers[i].phase == Collect({})
    case EndFn(i, ok) => i < |s.workers| && s.workers[i].phase.Running?
    case ChooseTo(i, to) => i < |s.workers| && s.workers[i].phase.Emit? && to in s.workers[i].phase.todo
    case Send(i, j) => CanSend(s, i, j)
    case CloseCh(i) =>
      && i < |s.workers| && s.workers[i].phase.CloseDep?
      && Edge(s.workers[i].v, s.workers[i].phase.to) !in s.closed
    case SentAll(i) => i < |s.workers| && s.workers[i].phase.Emit? && s.workers[i].phase.todo == {}
    case SendMain(i) =>
      && i < |s.workers| && s.workers[i].phase.Report? && s.main.Listen?
      && s.main.v == s.workers[i].v && s.workers[i].v !in s.doneClosed
    case CloseMain(i) =>
      i < |s.workers| && s.workers[i].phase.CloseDone? && s.workers[i].v !in s.doneClosed
    case MainChoose(v) => s.main.Pick? && v in s.main.todo
    case MainAll => s.main.Pick? && s.main.todo == {}
    case MainClosed => s.main.Listen? && s.main.v in s.doneClosed
    case MainCancelled => s.main.Listen? && s.cancelled
    case Cancel => !s.cancelled
  }

  ghost function SetPhase(s: State, i: nat, phase: Phase): State
    requires i < |s.workers|
  {
    s.(workers := s.workers[i := Worker(s.workers[i].v, phase)])
  }

  ghost function WithoutToken(s: State, k: nat, kids: seq<Vertex>): seq<Token>
    requires k < |s.tokens|
  {
    s.tokens[..k] + s.tokens[k + 1..] + Spawn(kids)
  }

  ghost function NewWorker(c: Config, v: Vertex): Worker {
    Worker(v, Collect(Deps(c.es, v)))
  }

  ghost function Next(c: Config, s: State, a: Action): State
    requires Enabled(c, s, a)
  {
    match a
    case Begin(kids) =>
      s.(visited := {c.from}, workers := [NewWorker(c, c.from)], tokens := Spawn(kids), main := Pick(c.vs))
    case Look(k, kids) =>
      if s.tokens[k].v in s.visited then s.(tokens := WithoutToken(s, k, kids))
      else s.(tokens := s.tokens[k := Mark(s.tokens[k].v)])
    case Visit(k, kids) =>
      s.(visited := s.visited + {s.tokens[k].v},
         workers := s.workers + [NewWorker(c, s.tokens[k].v)],
         tokens := WithoutToken(s, k, kids))
    case Choose(i, dep) => SetPhase(s, i, Await(s.workers[i].phase.todo - {dep}, dep))
    case GiveUp(i) => SetPhase(s, i, GaveUp)
    case RunFn(i) =>
      SetPhase(s, i, Running).(owner := s.owner[s.workers[i].v := i], log := s.log + [Started(s.workers[i].v)])
    case EndFn(i, ok) =>
      SetPhase(s, i, Emit(ok, Downs(c.es, s.workers[i].v))).(log := s.log + [Ended(s.workers[i].v, ok)])
    case ChooseTo(i, to) => var p := s.workers[i].phase; SetPhase(s, i, Offer(p.ok, p.todo - {to}, to))
    case Send(i, j) => s.(workers := AfterSend(s, i, j))
    case CloseCh(i) =>
      var p := s.workers[i].phase;
      SetPhase(s, i, Emit(p.ok, p.todo)).(closed := s.closed + {Edge(s.workers[i].v, p.to)})
    case SentAll(i) => SetPhase(s, i, Report(s.workers[i].phase.ok))
    case SendMain(i) =>
      var ok := s.workers[i].phase.ok;
      SetPhase(s, i, CloseDone(ok)).(main := if ok then Pick(s.main.todo) else Returned(false))
    case CloseMain(i) =>
      SetPhase(s, i, Finished(s.workers[i].phase.ok)).(doneClosed := s.doneClosed + {s.workers[i].v})
    case MainChoose(v) => s.(main := Listen(s.main.todo - {v}, v))
    case MainAll => s.(main := Returned(true))
    case MainClosed => s.(main := Returned(false))
    case MainCancelled => s.(main := Returned(false))
    case Cancel => s.(cancelled := true)
  }

  /** acts leads from s to t. */
  ghost predicate Steps(c: Config, s: State, acts: seq<Action>, t: State)
    decreases |acts|
  {
    if acts == [] then s == t
    else Enabled(c, s, acts[0]) && Steps(c, Next(c, s, acts[0]), acts[1..], t)
  }

  ghost predicate Reachable(c: Config, s: State) {
    exists acts :: Steps(c, Init, acts, s)
  }

  /** Some worker is about to send on, or to close, a channel that is closed. */
  ghost predicate WouldPanic(s: State) {
    exists i :: 0 <= i < |s.workers| && PanicsAt(s, s.workers[i])
  }

  ghost predicate PanicsAt(s: State, w: Worker) {
    || (w.phase.Offer? && Edge(w.v, w.phase.to) in s.closed)
    || (w.phase.CloseDep? && Edge(w.v, w.phase.to) in s.closed)
    || (w.phase.Report? && w.v in s.doneClosed)
    || (w.phase.CloseDone? && w.v in s.doneClosed)
  }

  /** Nothing but a cancellation from outside can happen. */
  ghost predicate Stuck(c: Config, s: State) {
    forall a :: Enabled(c, s, a) ==> a.Cancel?
  }

  lemma {:induction false} StepsSnoc(c: Config, s: State, acts: seq<Action>, t: State, a: Action)
    requires Steps(c, s, acts, t) && Enabled(c, t, a)
    ensures Steps(c, s, acts + [a], Next(c, t, a))
    decreases |acts|
  {
    if acts == [] {
      assert acts + [a] == [a];
      assert Steps(c, Next(c, t, a), [a][1..], Next(c, t, a));
    } else {
      StepsSnoc(c, Next(c, s, acts[0]), acts[1..], t, a);
      assert (acts + [a])[1..] == acts[1..] + [a];
    }
  }
}
