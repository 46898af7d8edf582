/** The in-process run scheduler: who may execute a run, and why a queued run is never lost.

    `RunScheduler` is the shared object; each of its methods is one critical section or one
    thread-local stretch of the original. `World` is the whole process: the committed status
    of every run, the shared set of running ids, and every thread that still has something to
    do for a run. Threads are followed from the commit that queues a run (`Pending`: a creator,
    resumer or retrier about to call `schedule`) through the worker it becomes. `Step` performs
    one atomic step; any interleaving is a sequence of actions. */
module Scheduler {
  import opened Basics
  import opened RunModel

  /** What the critical section of `schedule` does to the shared set, and whether it accepts. */
  function Reserve(running: set<RunId>, r: RunId): (set<RunId>, bool) {
    (running + {r}, r !in running)
  }

  class RunScheduler {
    var runningRuns: set<RunId>
    var submitted: seq<RunId>  // tasks handed to the thread pool, oldest first

    constructor ()
      ensures runningRuns == {} && submitted == []
    {
      runningRuns := {};
      submitted := [];
    }

    method Schedule(r: RunId) returns (scheduled: bool)
      modifies this
      ensures (runningRuns, scheduled) == Reserve(old(runningRuns), r)
      ensures submitted == old(submitted) + (if scheduled then [r] else [])
    {
      if r in runningRuns {
        assert runningRuns + {r} == runningRuns;
        return false;
      }
      runningRuns := runningRuns + {r};
      submitted := submitted + [r];
      return true;
    }

    /** The `finally` block of a worker: release the id, then re-check unless it crashed.
        `status` is what the re-check reads; None when there is no such run. */
    method Teardown(r: RunId, fatal: bool, status: Option<RunStatus>)
      modifies this
      ensures runningRuns == if !fatal && status == Some(Queued) then old(runningRuns) + {r} else old(runningRuns) - {r}
      ensures submitted == old(submitted) + (if !fatal && status == Some(Queued) then [r] else [])
    {
      runningRuns := runningRuns - {r};
      if !fatal {
        RescheduleIfRequeued(r, status);
      }
    }

    method RescheduleIfRequeued(r: RunId, status: Option<RunStatus>)
      modifies this
      ensures status != Some(Queued) ==> runningRuns == old(runningRuns) && submitted == old(submitted)
      ensures status == Some(Queued) ==>
                runningRuns == Reserve(old(runningRuns), r).0 &&
                submitted == old(submitted) + (if Reserve(old(runningRuns), r).1 then [r] else [])
    {
      if status == Some(Queued) {
        var _ := Schedule(r);
      }
    }
  }

  datatype Phase =
    | ReadFailed   // a retrier that has seen status `failed` and not yet written `queued`
    | Pending      // has committed `queued` (or re-read it) and will call `schedule`
    | Reserved     // `schedule` accepted; the task is with the pool
    | Executing    // a worker inside `execute_run`
    | TearingDown  // back from `execute_run`, still holding the id
    | Rechecking   // id released, status re-check not yet read

  datatype Thread = Thread(run: RunId, phase: Phase)

  datatype World = World(
    status: map<RunId, RunStatus>,
    running: set<RunId>,
    threads: map<nat, Thread>,
    next: nat)

  datatype Action =
    | Create(r: RunId)                    // a new run is committed as queued
    | Resume(r: RunId)                    // guarded: only a suspended run is re-queued
    | TimeOut(r: RunId)                   // guarded: only a suspended run is failed
    | RetryRead(r: RunId)                 // a retrier sees the run failed
    | RetryWrite(t: nat)                  // and later writes `queued`, unguarded
    | CallSchedule(t: nat)
    | Start(t: nat)                       // a pool thread enters `execute_run`
    | Commit(t: nat, status: RunStatus)   // a worker commits a status
    | Finish(t: nat)                      // `execute_run` returns
    | Release(t: nat)                     // the id leaves the shared set
    | Recheck(t: nat)                     // the post-run status read

  predicate At(w: World, t: nat, p: Phase) {
    t in w.threads && w.threads[t].phase == p
  }

  function Move(w: World, t: nat, p: Phase): World
    requires t in w.threads
  {
    w.(threads := w.threads[t := w.threads[t].(phase := p)])
  }

  function Exit(w: World, t: nat): World {
    w.(threads := w.threads - {t})
  }

  function Spawn(w: World, r: RunId, p: Phase): World {
    w.(threads := w.threads[w.next := Thread(r, p)], next := w.next + 1)
  }

  predicate Enabled(w: World, a: Action) {
    match a
    case Create(r) => r !in w.status
    case Resume(r) => r in w.status && w.status[r] == Suspended
    case TimeOut(r) => r in w.status && w.status[r] == Suspended
    case RetryRead(r) => r in w.status && w.status[r] == Failed
    case RetryWrite(t) => At(w, t, ReadFailed)
    case CallSchedule(t) => At(w, t, Pending)
    case Start(t) => At(w, t, Reserved)
    case Commit(t, s) => At(w, t, Executing) && s != Queued
    case Finish(t) => At(w, t, Executing)
    case Release(t) => At(w, t, TearingDown)
    case Recheck(t) => At(w, t, Rechecking)
  }

  /** One atomic step; an action that is not enabled changes nothing. */
  function Step(w: World, a: Action): World {
    if !Enabled(w, a) then w
    else match a
      case Create(r) => Spawn(w.(status := w.status[r := Queued]), r, Pending)
      case Resume(r) => Spawn(w.(status := w.status[r := Queued]), r, Pending)
      case TimeOut(r) => w.(status := w.status[r := Failed])
      case RetryRead(r) => Spawn(w, r, ReadFailed)
      case RetryWrite(t) => Move(w.(status := w.status[w.threads[t].run := Queued]), t, Pending)
      case CallSchedule(t) =>
        var (running, accepted) := Reserve(w.running, w.threads[t].run);
        if accepted then Move(w.(running := running), t, Reserved) else Exit(w, t)
      case Start(t) => Move(w, t, Executing)
      case Commit(t, s) => w.(status := w.status[w.threads[t].run := s])
      case Finish(t) => Move(w, t, TearingDown)
      case Release(t) => Move(w.(running := w.running - {w.threads[t].run}), t, Rechecking)
      case Recheck(t) =>
        var r := w.threads[t].run;
        if r in w.status && w.status[r] == Queued then Move(w, t, Pending) else Exit(w, t)
  }

  function Run(w: World, actions: seq<Action>): World {
    if actions == [] then w
    else Step(Run(w, actions[..|actions| - 1]), actions[|actions| - 1])
  }

  const Boot := World(map[], {}, map[], 0)

  /** Thread `t` holds its run's id: some `schedule` accepted and it is not released yet. */
  predicate Holds(th: Thread) {
    th.phase in {Reserved, Executing, TearingDown}
  }

  /** `th` will still look at its run: it has the run, its re-check or a `schedule` call ahead. */
  predicate Serves(th: Thread, r: RunId) {
    th.run == r && th.phase != ReadFailed
  }

  ghost predicate UniqueHolders(w: World) {
    forall t, u :: (&& t in w.threads && Holds(w.threads[t])
                    && u in w.threads && Holds(w.threads[u])
                    && w.threads[t].run == w.threads[u].run) ==> t == u
  }

  ghost predicate OneHolder(w: World) {
    && UniqueHolders(w)
    && (forall t :: t in w.threads && Holds(w.threads[t]) ==> w.threads[t].run in w.running)
    && (forall r :: r in w.running ==> exists t :: t in w.threads && Holds(w.threads[t]) && w.threads[t].run == r)
  }

  ghost predicate NoneStranded(w: World) {
    forall r :: r in w.status && w.status[r] == Queued ==> exists t :: t in w.threads && Serves(w.threads[t], r)
  }

  ghost predicate Inv(w: World) {
    && (forall t :: t in w.threads ==> t < w.next)
    && OneHolder(w)
    && NoneStranded(w)
  }

  lemma HoldersStayUnique(w: World, a: Action)
    requires Inv(w)
    ensures UniqueHolders(Step(w, a))
  {
    var v := Step(w, a);
    forall t, u | (&& t in v.threads && Holds(v.threads[t]) && u in v.threads && Holds(v.threads[u])
                   && v.threads[t].run == v.threads[u].run)
      ensures t == u
    {
      // A thread that holds an id now held it before, unless this step granted it.
      assert t in w.threads && w.threads[t].run == v.threads[t].run;
      assert u in w.threads && w.threads[u].run == v.threads[u].run;
    }
  }

  lemma HeldIdsStayRegistered(w: World, a: Action, t: nat)
    requires Inv(w) && t in Step(w, a).threads && Holds(Step(w, a).threads[t])
    ensures Step(w, a).threads[t].run in Step(w, a).running
  {
    assert t in w.threads && w.threads[t].run == Step(w, a).threads[t].run;
  }

  lemma RegisteredIdsStayHeld(w: World, a: Action, r: RunId) returns (t: nat)
    requires Inv(w) && r in Step(w, a).running
    ensures t in Step(w, a).threads && Holds(Step(w, a).threads[t]) && Step(w, a).threads[t].run == r
  {
    if r in w.running {
      t :| t in w.threads && Holds(w.threads[t]) && w.threads[t].run == r;
    } else {
      t := a.t;
    }
  }

  lemma HoldersStayRegistered(w: World, a: Action)
    requires Inv(w)
    ensures OneHolder(Step(w, a))
  {
    var v := Step(w, a);
    HoldersStayUnique(w, a);
    forall t | t in v.threads && Holds(v.threads[t]) ensures v.threads[t].run in v.running {
      HeldIdsStayRegistered(w, a, t);
    }
    forall r | r in v.running ensures exists t :: t in v.threads && Holds(v.threads[t]) && v.threads[t].run == r {
      var t := RegisteredIdsStayHeld(w, a, r);
    }
  }

  lemma QueuedStaysServed(w: World, a: Action)
    requires Inv(w)
    ensures NoneStranded(Step(w, a))
  {
    var v := Step(w, a);
    forall r | r in v.status && v.status[r] == Queued
      ensures exists t :: t in v.threads && Serves(v.threads[t], r)
    {
      if r in w.status && w.status[r] == Queued {
        var t :| t in w.threads && Serves(w.threads[t], r);
        if t !in v.threads {
          // Only a refused `schedule` ends a thread of a queued run; the holder takes over.
          assert a == CallSchedule(t) && r in w.running;
          var u :| u in w.threads && Holds(w.threads[u]) && w.threads[u].run == r;
          assert u in v.threads && Serves(v.threads[u], r);
        } else {
          assert Serves(v.threads[t], r);
        }
      } else {
        var t := if a.RetryWrite? then a.t else w.next;
        assert t in v.threads && Serves(v.threads[t], r);
      }
    }
  }

  lemma ThreadsStayBelow(w: World, a: Action)
    requires forall t :: t in w.threads ==> t < w.next
    ensures forall t :: t in Step(w, a).threads ==> t < Step(w, a).next
  {}

  lemma InvKept(w: World, a: Action)
    requires Inv(w)
    ensures Inv(Step(w, a))
  {
    ThreadsStayBelow(w, a);
    HoldersStayRegistered(w, a);
    QueuedStaysServed(w, a);
  }

  lemma {:induction false} InvAlways(actions: seq<Action>)
    ensures Inv(Run(Boot, actions))
  {
    if actions != [] {
      InvAlways(actions[..|actions| - 1]);
      InvKept(Run(Boot, actions[..|actions| - 1]), actions[|actions| - 1]);
    }
  }

  /** In every interleaving, at most one thread per run is inside `execute_run`, and some
      thread still has to look at every queued run. */
  lemma EveryInterleaving(actions: seq<Action>)
    ensures var w := Run(Boot, actions);
      && (forall t, u :: At(w, t, Executing) && At(w, u, Executing) && w.threads[t].run == w.threads[u].run ==> t == u)
      && (forall r :: r in w.status && w.status[r] == Queued ==> exists t :: t in w.threads && Serves(w.threads[t], r))
  {
    InvAlways(actions);
  }

  /** A step that needs no outside caller. */
  predicate Internal(a: Action) {
    a.CallSchedule? || a.Start? || a.Finish? || a.Release? || a.Recheck?
  }

  lemma {:induction false} RunSplit(w: World, xs: seq<Action>, ys: seq<Action>)
    ensures Run(w, xs + ys) == Run(Run(w, xs), ys)
  {
    if ys == [] {
      assert xs + ys == xs;
    } else {
      RunSplit(w, xs, ys[..|ys| - 1]);
      assert (xs + ys)[..|xs + ys| - 1] == xs + ys[..|ys| - 1];
    }
  }

  function StepsToStart(p: Phase): nat {
    match p
    case Executing => 5
    case TearingDown => 4
    case Rechecking => 3
    case Pending => 2
    case _ => 1
  }

  function NextStep(p: Phase, t: nat): Action {
    match p
    case Executing => Finish(t)
    case TearingDown => Release(t)
    case Rechecking => Recheck(t)
    case Pending => CallSchedule(t)
    case _ => Start(t)
  }

  lemma StepTowardsStart(w: World, r: RunId, t: nat)
    requires r in w.status && w.status[r] == Queued
    requires t in w.threads && Serves(w.threads[t], r) && w.threads[t].phase != Reserved
    requires Holds(w.threads[t]) || r !in w.running
    ensures var v := Step(w, NextStep(w.threads[t].phase, t));
      && v.status == w.status && t in v.threads && Serves(v.threads[t], r)
      && (Holds(v.threads[t]) || r !in v.running)
      && StepsToStart(v.threads[t].phase) < StepsToStart(w.threads[t].phase)
  {}

  /** Drive thread `t`, which serves the queued run `r` and holds or may take its id, to the
      point where it enters `execute_run` again. */
  lemma {:induction false} Drive(w: World, r: RunId, t: nat) returns (acts: seq<Action>)
    requires Inv(w) && r in w.status && w.status[r] == Queued
    requires t in w.threads && Serves(w.threads[t], r)
    requires Holds(w.threads[t]) || r !in w.running
    ensures 0 < |acts| <= StepsToStart(w.threads[t].phase) && forall i :: 0 <= i < |acts| ==> Internal(acts[i])
    ensures acts[|acts| - 1] == Start(t)
    ensures At(Run(w, acts[..|acts| - 1]), t, Reserved) && At(Run(w, acts), t, Executing)
    ensures Run(w, acts).threads[t].run == r && Run(w, acts).status == w.status
    decreases StepsToStart(w.threads[t].phase)
  {
    var a := NextStep(w.threads[t].phase, t);
    var v := Step(w, a);
    if a.Start? {
      acts := [a];
      assert acts[..0] == [] && Run(w, []) == w;
    } else {
      InvKept(w, a);
      StepTowardsStart(w, r, t);
      var rest := Drive(v, r, t);
      acts := [a] + rest;
      assert Run(w, [a]) == v by { assert [a][..0] == []; assert Run(w, []) == w; }
      RunSplit(w, [a], rest);
      RunSplit(w, [a], rest[..|rest| - 1]);
      assert acts[..|acts| - 1] == [a] + rest[..|rest| - 1];
    }
  }

  /** A queued run can always be brought back into `execute_run` by the threads that already
      exist, in at most five of their own steps: it never needs another caller to rescue it. */
  lemma QueuedRunIsNeverStranded(actions: seq<Action>, r: RunId) returns (t: nat, acts: seq<Action>)
    requires r in Run(Boot, actions).status && Run(Boot, actions).status[r] == Queued
    ensures |acts| <= 5 && acts != [] && (forall i :: 0 <= i < |acts| ==> Internal(acts[i]))
    ensures t in Run(Boot, actions).threads && acts[|acts| - 1] == Start(t)
    ensures var w := Run(Boot, actions + acts);
      At(w, t, Executing) && w.threads[t].run == r && w.status == Run(Boot, actions).status
  {
    InvAlways(actions);
    var w := Run(Boot, actions);
    t :| t in w.threads && Serves(w.threads[t], r);
    if r in w.running {
      t :| t in w.threads && Holds(w.threads[t]) && w.threads[t].run == r;
    }
    acts := Drive(w, r, t);
    RunSplit(Boot, actions, acts);
  }

  /** The re-check can overtake the caller it stands in for. Here the worker that suspended run
      `r` re-queues and finishes it up to the next gate, and only then does the resumer's own
      `schedule` arrive; it is accepted, and a worker enters `execute_run` for a run that is
      suspended. Nothing in `execute_run` looks at the status it finds. */
  lemma StaleStart(r: RunId) returns (actions: seq<Action>, t: nat)
    ensures At(Run(Boot, actions), t, Executing)
    ensures Run(Boot, actions).threads[t].run == r
    ensures Run(Boot, actions).status == map[r := Suspended]
    ensures actions != [] && actions[|actions| - 1] == Start(t)
  {
    // The first worker runs to gate one and suspends; its resumer is thread 1.
    actions := Extend([], World(map[r := Queued], {}, map[0 := Thread(r, Pending)], 1), Create(r));
    actions := WorkerSuspends(actions, r, 0);
    var w := Run(Boot, actions);
    actions := Extend(actions, Spawn(w.(status := w.status[r := Queued]), r, Pending), Resume(r));
    // Its re-check finds the run queued, runs it to gate two, and then finds it suspended.
    actions := WorkerLeaves(actions, r, 0, Queued);
    actions := WorkerSuspends(actions, r, 0);
    actions := WorkerLeaves(actions, r, 0, Suspended);
    // Only now does the resumer call `schedule`.
    w := Run(Boot, actions);
    actions := Extend(actions, w.(running := {r}, threads := w.threads[1 := Thread(r, Reserved)]), CallSchedule(1));
    w := Run(Boot, actions);
    actions := Extend(actions, Move(w, 1, Executing), Start(1));
    t := 1;
  }

  lemma Extend(acts: seq<Action>, v: World, a: Action) returns (more: seq<Action>)
    requires Step(Run(Boot, acts), a) == v
    ensures more == acts + [a] && Run(Boot, more) == v
  {
    more := acts + [a];
    assert more[..|more| - 1] == acts;
  }

  /** A pending thread takes the id, enters `execute_run` and suspends the run. */
  lemma WorkerSuspends(acts: seq<Action>, r: RunId, t: nat) returns (more: seq<Action>)
    requires At(Run(Boot, acts), t, Pending) && Run(Boot, acts).threads[t].run == r && r !in Run(Boot, acts).running
    ensures var w := Run(Boot, acts);
      Run(Boot, more) == w.(status := w.status[r := Suspended], running := w.running + {r},
                            threads := w.threads[t := Thread(r, Executing)])
  {
    var w := Run(Boot, acts);
    more := Extend(acts, Move(w.(running := w.running + {r}), t, Reserved), CallSchedule(t));
    w := Run(Boot, more);
    more := Extend(more, Move(w, t, Executing), Start(t));
    w := Run(Boot, more);
    more := Extend(more, w.(status := w.status[r := Suspended]), Commit(t, Suspended));
  }

  /** A worker returns, releases the id and re-checks a run whose status is `s` by then. */
  lemma WorkerLeaves(acts: seq<Action>, r: RunId, t: nat, s: RunStatus) returns (more: seq<Action>)
    requires At(Run(Boot, acts), t, Executing) && Run(Boot, acts).threads[t].run == r
    requires r in Run(Boot, acts).status && Run(Boot, acts).status[r] == s
    ensures var w := Run(Boot, acts);
      Run(Boot, more) == w.(running := w.running - {r},
                            threads := if s == Queued then w.threads[t := Thread(r, Pending)] else w.threads - {t})
  {
    var w := Run(Boot, acts);
    more := Extend(acts, Move(w, t, TearingDown), Finish(t));
    w := Run(Boot, more);
    more := Extend(more, Move(w.(running := w.running - {r}), t, Rechecking), Release(t));
    w := Run(Boot, more);
    more := Extend(more, if s == Queued then Move(w, t, Pending) else Exit(w, t), Recheck(t));
  }
}
