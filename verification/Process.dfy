/** The scheduler and one run's life cycle, joined: the threads of `Scheduler` do to run `r` what
    `Lifecycle` says. A worker's segment begins when a pool thread enters `execute_run`, whoever
    answers a suspension is the thread that calls `schedule` afterwards, and both machines agree on
    the run's status throughout. */
module Process {
  import opened Basics
  import opened RunModel
  import Scheduler
  import opened Lifecycle
  import opened LifecycleSafety
  import opened LifecycleRefinement

  datatype Joint = Joint(process: Scheduler.World, life: World)

  datatype Event =
    | Begin(t: nat)                       // a pool thread enters `execute_run` and reads the rows
    | Inside(t: nat, a: Action)           // the worker's segment takes a step
    | Leave(t: nat)                       // `execute_run` returns
    | CallSchedule(t: nat)
    | Release(t: nat)
    | Recheck(t: nat)
    | Look(a: Action)                     // a caller reads the run or its waiting row
    | Answer(a: Action)                   // a resume, a rejection or a timeout claims the run
    | RetryLook
    | RetryPut(t: nat)
    | Elsewhere(other: Scheduler.Action)      // anything done for another run

  /** Thread `t` works for `r` and is at `p`. */
  predicate Mine(r: RunId, w: Scheduler.World, t: nat, p: Scheduler.Phase) {
    t in w.threads && w.threads[t] == Scheduler.Thread(r, p)
  }

  predicate Foreign(r: RunId, w: Scheduler.World, a: Scheduler.Action) {
    match a
    case Create(q) => q != r
    case Resume(q) => q != r
    case TimeOut(q) => q != r
    case RetryRead(q) => q != r
    case RetryWrite(t) => t in w.threads && w.threads[t].run != r
    case CallSchedule(t) => t in w.threads && w.threads[t].run != r
    case Start(t) => t in w.threads && w.threads[t].run != r
    case Commit(t, _) => t in w.threads && w.threads[t].run != r
    case Finish(t) => t in w.threads && w.threads[t].run != r
    case Release(t) => t in w.threads && w.threads[t].run != r
    case Recheck(t) => t in w.threads && w.threads[t].run != r
  }

  predicate Possible(r: RunId, j: Joint, e: Event) {
    match e
    case Begin(t) => Mine(r, j.process, t, Scheduler.Reserved)
    case Inside(t, a) => Mine(r, j.process, t, Scheduler.Executing) && OfSegment(a) && !a.Load? && Enabled(j.life, a)
    case Leave(t) => Mine(r, j.process, t, Scheduler.Executing) && j.life.seg.None?
    case CallSchedule(t) => Mine(r, j.process, t, Scheduler.Pending)
    case Release(t) => Mine(r, j.process, t, Scheduler.TearingDown)
    case Recheck(t) => Mine(r, j.process, t, Scheduler.Rechecking)
    case Look(a) => (a.ReadRun? || a.ReadRow?) && Enabled(j.life, a)
    case Answer(a) => Leaves(a) && Enabled(j.life, a)
    case RetryLook => Enabled(j.life, RetryRead)
    case RetryPut(t) => Mine(r, j.process, t, Scheduler.ReadFailed)
    case Elsewhere(a) => Foreign(r, j.process, a) && Scheduler.Enabled(j.process, a)
  }

  /** What an event is to the process. A segment's step is visible when it changes the status. */
  function ProcessMove(r: RunId, j: Joint, e: Event): Option<Scheduler.Action> {
    match e
    case Begin(t) => Some(Scheduler.Start(t))
    case Inside(t, a) =>
      if Step(j.life, a).status == j.life.status then None else Some(Scheduler.Commit(t, Step(j.life, a).status))
    case Leave(t) => Some(Scheduler.Finish(t))
    case CallSchedule(t) => Some(Scheduler.CallSchedule(t))
    case Release(t) => Some(Scheduler.Release(t))
    case Recheck(t) => Some(Scheduler.Recheck(t))
    case Look(_) => None
    case Answer(a) => Some(if a.Resume? then Scheduler.Resume(r) else Scheduler.TimeOut(r))
    case RetryLook => Some(Scheduler.RetryRead(r))
    case RetryPut(t) => Some(Scheduler.RetryWrite(t))
    case Elsewhere(a) => Some(a)
  }

  /** What it is to the run. */
  function LifeMove(e: Event): Option<Action> {
    match e
    case Begin(_) => Some(Load)
    case Inside(_, a) => Some(a)
    case Look(a) => Some(a)
    case Answer(a) => Some(a)
    case RetryLook => Some(RetryRead)
    case RetryPut(_) => Some(RetryWrite)
    case _ => None
  }

  function ProcessAfter(w: Scheduler.World, m: Option<Scheduler.Action>): Scheduler.World {
    if m.None? then w else Scheduler.Step(w, m.value)
  }

  function LifeAfter(w: World, m: Option<Action>): World {
    if m.None? then w else Step(w, m.value)
  }

  datatype Moves = Moves(process: Option<Scheduler.Action>, life: Option<Action>)

  function MovesOf(r: RunId, j: Joint, e: Event): Moves {
    if Possible(r, j, e) then Moves(ProcessMove(r, j, e), LifeMove(e)) else Moves(None, None)
  }

  function Moved(j: Joint, m: Moves): Joint {
    Joint(ProcessAfter(j.process, m.process), LifeAfter(j.life, m.life))
  }

  function After(r: RunId, j: Joint, e: Event): Joint {
    Moved(j, MovesOf(r, j, e))
  }

  /** The run has just been created and committed as queued; its creator will call `schedule`. */
  function Born(r: RunId): Joint {
    Joint(Scheduler.Step(Scheduler.Boot, Scheduler.Create(r)), Created)
  }

  function History(r: RunId, events: seq<Event>): Joint {
    if events == [] then Born(r)
    else After(r, History(r, events[..|events| - 1]), events[|events| - 1])
  }

  // ------------------------------------------------------------------ both machines, projected

  function ListOf<T>(m: Option<T>): seq<T> {
    if m.Some? then [m.value] else []
  }

  function ProcessActions(r: RunId, events: seq<Event>): seq<Scheduler.Action> {
    if events == [] then [Scheduler.Create(r)]
    else
      var k := |events| - 1;
      ProcessActions(r, events[..k]) + ListOf(MovesOf(r, History(r, events[..k]), events[k]).process)
  }

  function LifeActions(r: RunId, events: seq<Event>): seq<Action> {
    if events == [] then []
    else
      var k := |events| - 1;
      LifeActions(r, events[..k]) + ListOf(MovesOf(r, History(r, events[..k]), events[k]).life)
  }

  lemma ProcessMoves(actions: seq<Scheduler.Action>, m: Option<Scheduler.Action>)
    ensures Scheduler.Run(Scheduler.Boot, actions + ListOf(m))
         == ProcessAfter(Scheduler.Run(Scheduler.Boot, actions), m)
  {
    assert (actions + ListOf(m))[..|actions|] == actions;
    if m.None? { assert actions + ListOf(m) == actions; }
  }

  lemma LifeMoves(actions: seq<Action>, m: Option<Action>)
    ensures Run(Created, actions + ListOf(m)) == LifeAfter(Run(Created, actions), m)
  {
    assert (actions + ListOf(m))[..|actions|] == actions;
    if m.None? { assert actions + ListOf(m) == actions; }
  }

  /** A joint history is a history of each machine, so what holds of all of theirs holds of it. */
  lemma {:induction false} HistoryProjects(r: RunId, events: seq<Event>)
    ensures History(r, events).process == Scheduler.Run(Scheduler.Boot, ProcessActions(r, events))
    ensures History(r, events).life == Run(Created, LifeActions(r, events))
  {
    if events == [] {
      ProcessMoves([], Some(Scheduler.Create(r)));
      assert [] + ListOf(Some(Scheduler.Create(r))) == [Scheduler.Create(r)];
    } else {
      var k := |events| - 1;
      var m := MovesOf(r, History(r, events[..k]), events[k]);
      HistoryProjects(r, events[..k]);
      ProcessMoves(ProcessActions(r, events[..k]), m.process);
      LifeMoves(LifeActions(r, events[..k]), m.life);
    }
  }

  // ------------------------------------------------------------------ the machines agree

  /** The retriers of `r` that have read and not written. */
  function Readers(r: RunId, w: Scheduler.World): set<nat> {
    set t | t in w.threads && w.threads[t] == Scheduler.Thread(r, Scheduler.ReadFailed)
  }

  ghost predicate HasWorker(r: RunId, w: Scheduler.World) {
    exists t :: Mine(r, w, t, Scheduler.Executing)
  }

  predicate SameStatus(r: RunId, j: Joint) {
    r in j.process.status && j.process.status[r] == j.life.status
  }

  ghost predicate Agree(r: RunId, j: Joint) {
    && Scheduler.Inv(j.process) && StateInv(j.life)
    && SameStatus(r, j)
    && |Readers(r, j.process)| == j.life.retriers
    && (j.life.seg.Some? ==> HasWorker(r, j.process))
  }

  /** How a step of the life cycle changes the status. */
  lemma StatusMoves(w: World, a: Action)
    requires Enabled(w, a)
    ensures OfSegment(a) && Step(w, a).status != w.status ==> Step(w, a).status != Queued
    ensures Leaves(a) ==> w.status == Suspended && Step(w, a).status == if a.Resume? then Queued else Failed
    ensures a.RetryWrite? ==> Step(w, a).status == Queued
    ensures a.Load? || a.ReadRun? || a.ReadRow? || a.RetryRead? ==> Step(w, a).status == w.status
    ensures Step(w, a).retriers == w.retriers + (if a.RetryRead? then 1 else if a.RetryWrite? then -1 else 0)
    ensures !OfSegment(a) ==> Step(w, a).seg == w.seg
    ensures OfSegment(a) && !a.Load? ==> w.seg.Some?
    ensures OfSegment(a) && !a.Load? && Step(w, a).seg.Some? ==> Step(w, a).status in {w.status, Running}
  {}

  lemma RetryCanWrite(r: RunId, j: Joint, t: nat)
    requires Agree(r, j) && Mine(r, j.process, t, Scheduler.ReadFailed)
    ensures Enabled(j.life, RetryWrite)
  {
    assert t in Readers(r, j.process);
  }

  /** A thread that has been handed the run finds no segment in progress. */
  lemma WorkerCanLoad(r: RunId, j: Joint, t: nat)
    requires Agree(r, j) && Mine(r, j.process, t, Scheduler.Reserved)
    ensures Enabled(j.life, Load)
  {
    if j.life.seg.Some? {
      var u :| Mine(r, j.process, u, Scheduler.Executing);
      assert Scheduler.Holds(j.process.threads[t]) && Scheduler.Holds(j.process.threads[u]);
    }
  }

  /** A possible event is possible for both machines: the joint machine blocks neither. */
  lemma PossibleForBoth(r: RunId, j: Joint, e: Event)
    requires Agree(r, j) && Possible(r, j, e)
    ensures LifeMove(e).Some? ==> Enabled(j.life, LifeMove(e).value)
  {
    match e
    case Begin(t) => WorkerCanLoad(r, j, t);
    case RetryPut(t) => RetryCanWrite(r, j, t);
    case _ =>
  }

  /** How a step of the process changes the status of `r`. */
  lemma ProcessStatus(r: RunId, w: Scheduler.World, a: Scheduler.Action)
    requires r in w.status && Scheduler.Enabled(w, a)
    ensures r in Scheduler.Step(w, a).status
    ensures Scheduler.Step(w, a).status[r] == match a
      case Resume(q) => if q == r then Queued else w.status[r]
      case TimeOut(q) => if q == r then Failed else w.status[r]
      case RetryWrite(t) => if w.threads[t].run == r then Queued else w.status[r]
      case Commit(t, s) => if w.threads[t].run == r then s else w.status[r]
      case _ => w.status[r]
  {}

  /** And its threads that execute `r`. */
  lemma ProcessWorkers(r: RunId, w: Scheduler.World, a: Scheduler.Action, t: nat)
    requires Scheduler.Enabled(w, a) && Mine(r, w, t, Scheduler.Executing) && t < w.next && a != Scheduler.Finish(t)
    ensures Mine(r, Scheduler.Step(w, a), t, Scheduler.Executing)
  {}

  lemma ReadersAfter(r: RunId, w: Scheduler.World, a: Scheduler.Action)
    requires Scheduler.Inv(w) && r in w.status && Scheduler.Enabled(w, a)
    ensures w.next !in Readers(r, w)
    ensures Readers(r, Scheduler.Step(w, a)) ==
              if a == Scheduler.RetryRead(r) then Readers(r, w) + {w.next}
              else if a.RetryWrite? && w.threads[a.t].run == r then Readers(r, w) - {a.t}
              else Readers(r, w)
  {}

  lemma ProcessCan(r: RunId, j: Joint, e: Event)
    requires Agree(r, j) && Possible(r, j, e)
    ensures ProcessMove(r, j, e).Some? ==> Scheduler.Enabled(j.process, ProcessMove(r, j, e).value)
  {
    if e.Inside? { StatusMoves(j.life, e.a); }
  }

  lemma SameStatusKept(r: RunId, j: Joint, e: Event)
    requires Agree(r, j) && Possible(r, j, e)
    ensures SameStatus(r, After(r, j, e))
  {
    var (p, l) := (ProcessMove(r, j, e), LifeMove(e));
    ProcessCan(r, j, e);
    PossibleForBoth(r, j, e);
    if p.Some? { ProcessStatus(r, j.process, p.value); }
    if l.Some? { StatusMoves(j.life, l.value); }
  }

  lemma ReadersCounted(r: RunId, j: Joint, e: Event)
    requires Agree(r, j) && Possible(r, j, e)
    ensures |Readers(r, After(r, j, e).process)| == After(r, j, e).life.retriers
  {
    var (p, l) := (ProcessMove(r, j, e), LifeMove(e));
    ProcessCan(r, j, e);
    PossibleForBoth(r, j, e);
    if p.Some? { ReadersAfter(r, j.process, p.value); }
    if l.Some? { StatusMoves(j.life, l.value); }
  }

  lemma WorkerStays(r: RunId, j: Joint, e: Event)
    requires Agree(r, j) && Possible(r, j, e) && After(r, j, e).life.seg.Some?
    ensures HasWorker(r, After(r, j, e).process)
  {
    var (p, l) := (ProcessMove(r, j, e), LifeMove(e));
    ProcessCan(r, j, e);
    PossibleForBoth(r, j, e);
    if l.Some? { StatusMoves(j.life, l.value); }
    if e.Begin? {
      assert Mine(r, After(r, j, e).process, e.t, Scheduler.Executing);
    } else {
      var t :| Mine(r, j.process, t, Scheduler.Executing);
      if p.Some? { ProcessWorkers(r, j.process, p.value, t); }
      assert Mine(r, After(r, j, e).process, t, Scheduler.Executing);
    }
  }

  lemma AgreeKept(r: RunId, j: Joint, e: Event)
    requires Agree(r, j)
    ensures Agree(r, After(r, j, e))
  {
    if Possible(r, j, e) {
      var (p, l) := (ProcessMove(r, j, e), LifeMove(e));
      if p.Some? { Scheduler.InvKept(j.process, p.value); }
      if l.Some? { StateInvKept(j.life, l.value); }
      SameStatusKept(r, j, e);
      ReadersCounted(r, j, e);
      if After(r, j, e).life.seg.Some? { WorkerStays(r, j, e); }
    }
  }

  lemma {:induction false} AlwaysAgree(r: RunId, events: seq<Event>)
    ensures Agree(r, History(r, events))
  {
    if events == [] {
      Scheduler.InvKept(Scheduler.Boot, Scheduler.Create(r));
      assert Readers(r, Born(r).process) == {};
    } else {
      AlwaysAgree(r, events[..|events| - 1]);
      AgreeKept(r, History(r, events[..|events| - 1]), events[|events| - 1]);
    }
  }

  // ------------------------------------------------------------------ schedules in time

  /** A `schedule` call that is accepted although the run is queued no longer: some re-check has had the
      run executed before the call arrived. */
  predicate Late(r: RunId, j: Joint, e: Event) {
    e.CallSchedule? && Possible(r, j, e) && r !in j.process.running && j.life.status != Queued
  }

  predicate OnTime(r: RunId, events: seq<Event>) {
    events != [] ==>
      (var k := |events| - 1;
       OnTime(r, events[..k]) && !Late(r, History(r, events[..k]), events[k]))
  }

  /** A run that is handed to the pool is queued, and one that a segment is executing does not wait. */
  ghost predicate Tidy(r: RunId, j: Joint) {
    && (forall t :: Mine(r, j.process, t, Scheduler.Reserved) ==> j.life.status == Queued)
    && (j.life.seg.Some? ==> j.life.status in {Queued, Running})
  }

  lemma NewlyReserved(r: RunId, w: Scheduler.World, a: Scheduler.Action, t: nat)
    requires Scheduler.Enabled(w, a) && Mine(r, Scheduler.Step(w, a), t, Scheduler.Reserved)
    ensures Mine(r, w, t, Scheduler.Reserved) || (a == Scheduler.CallSchedule(t) && r !in w.running)
    ensures a.Start? ==> a.t != t
  {}

  lemma QueuedStaysQueued(r: RunId, j: Joint, e: Event, t: nat)
    requires Agree(r, j) && Possible(r, j, e)
    requires Mine(r, j.process, t, Scheduler.Reserved) && j.life.status == Queued
    ensures After(r, j, e).life.status == Queued
  {
    var l := LifeMove(e);
    PossibleForBoth(r, j, e);
    if l.Some? { StatusMoves(j.life, l.value); }
    if e.Inside? {
      assert Scheduler.Holds(j.process.threads[t]) && Scheduler.Holds(j.process.threads[e.t]);
    }
  }

  lemma ReservedIsQueued(r: RunId, j: Joint, e: Event, t: nat)
    requires Agree(r, j) && Tidy(r, j) && Possible(r, j, e) && !Late(r, j, e)
    requires Mine(r, After(r, j, e).process, t, Scheduler.Reserved)
    ensures After(r, j, e).life.status == Queued
  {
    var p := ProcessMove(r, j, e);
    ProcessCan(r, j, e);
    if p.Some? { NewlyReserved(r, j.process, p.value, t); }
    if Mine(r, j.process, t, Scheduler.Reserved) { QueuedStaysQueued(r, j, e, t); }
  }

  lemma SegmentIsAwake(r: RunId, j: Joint, e: Event)
    requires Agree(r, j) && Tidy(r, j) && Possible(r, j, e) && After(r, j, e).life.seg.Some?
    ensures After(r, j, e).life.status in {Queued, Running}
  {
    var l := LifeMove(e);
    PossibleForBoth(r, j, e);
    if l.Some? { StatusMoves(j.life, l.value); }
  }

  lemma TidyKept(r: RunId, j: Joint, e: Event)
    requires Agree(r, j) && Tidy(r, j) && !Late(r, j, e)
    ensures Tidy(r, After(r, j, e))
  {
    if Possible(r, j, e) {
      forall t | Mine(r, After(r, j, e).process, t, Scheduler.Reserved) ensures After(r, j, e).life.status == Queued {
        ReservedIsQueued(r, j, e, t);
      }
      if After(r, j, e).life.seg.Some? { SegmentIsAwake(r, j, e); }
    }
  }

  lemma {:induction false} OnTimeIsTidy(r: RunId, events: seq<Event>)
    requires OnTime(r, events)
    ensures Agree(r, History(r, events)) && Tidy(r, History(r, events))
  {
    AlwaysAgree(r, events);
    if events != [] {
      OnTimeIsTidy(r, events[..|events| - 1]);
      TidyKept(r, History(r, events[..|events| - 1]), events[|events| - 1]);
    }
  }

  /** Without late schedules every segment begins on a queued run, never on a suspended one. */
  lemma SegmentsBeginQueued(r: RunId, events: seq<Event>, t: nat)
    requires OnTime(r, events) && Possible(r, History(r, events), Begin(t))
    ensures History(r, events).life.status == Queued
    ensures History(r, events + [Begin(t)]).life == Step(History(r, events).life, Load)
    ensures History(r, events).life.seg.None?
  {
    OnTimeIsTidy(r, events);
    WorkerCanLoad(r, History(r, events), t);
    OneMore(r, events, Begin(t));
  }

  lemma OneMore(r: RunId, events: seq<Event>, e: Event)
    ensures History(r, events + [e]) == After(r, History(r, events), e)
    ensures OnTime(r, events + [e]) <==> OnTime(r, events) && !Late(r, History(r, events), e)
  {
    assert (events + [e])[..|events|] == events;
  }

  /** No event of `more`, which come after `events`, is a late schedule. */
  predicate OnTimeAfter(r: RunId, events: seq<Event>, more: seq<Event>) {
    more != [] ==>
      (var k := |more| - 1;
       OnTimeAfter(r, events, more[..k]) && !Late(r, History(r, events + more[..k]), more[k]))
  }

  lemma {:induction false} StaysOnTime(r: RunId, events: seq<Event>, more: seq<Event>)
    requires OnTime(r, events) && OnTimeAfter(r, events, more)
    ensures OnTime(r, events + more)
  {
    if more == [] {
      assert events + more == events;
    } else {
      var k := |more| - 1;
      StaysOnTime(r, events, more[..k]);
      OneMore(r, events + more[..k], more[k]);
      assert events + more[..k] + [more[k]] == events + more;
    }
  }

  /** After `more`, with every schedule in it on time, thread `t` can begin a segment although the run
      is not queued. */
  predicate LoadsStale(r: RunId, events: seq<Event>, more: seq<Event>, t: nat) {
    && OnTimeAfter(r, events, more)
    && Possible(r, History(r, events + more), Begin(t)) && History(r, events + more).life.status != Queued
  }

  /** The exact condition: an accepted `schedule` call lets some segment begin on a run that is not
      queued, with every later call in time, if and only if it is late itself. */
  lemma LoadsStaleIffLate(r: RunId, events: seq<Event>, t: nat)
    requires OnTime(r, events) && Possible(r, History(r, events), CallSchedule(t))
    requires r !in History(r, events).process.running
    ensures Late(r, History(r, events), CallSchedule(t))
       <==> exists more, u :: LoadsStale(r, events + [CallSchedule(t)], more, u)
  {
    var e := CallSchedule(t);
    OneMore(r, events, e);
    if Late(r, History(r, events), e) {
      assert events + [e] + [] == events + [e];
      assert LoadsStale(r, events + [e], [], t);
    } else {
      forall more, u ensures !LoadsStale(r, events + [e], more, u) {
        if LoadsStale(r, events + [e], more, u) {
          StaysOnTime(r, events + [e], more);
          SegmentsBeginQueued(r, events + [e] + more, u);
        }
      }
    }
  }

  /** Without late schedules nobody answers a run while a segment works on it, so no resume is blind,
      and a segment's writes never replace `suspended`. */
  lemma OnTimeIsQuiet(r: RunId, events: seq<Event>, e: Event)
    requires OnTime(r, events) && Possible(r, History(r, events), e) && LifeMove(e).Some?
    ensures var (w, a) := (History(r, events).life, LifeMove(e).value);
      && (Leaves(a) ==> w.seg.None?)
      && !Blind(w, a)
      && (OfSegment(a) ==> w.status != Suspended)
  {
    OnTimeIsTidy(r, events);
    var w := History(r, events).life;
    PossibleForBoth(r, History(r, events), e);
    StatusMoves(w, LifeMove(e).value);
  }

  /** What can still abandon a waiting row then: a retry's late write, and a claim with another row. */
  predicate Abandons(r: RunId, j: Joint, e: Event) {
    && Possible(r, j, e)
    && ((e.RetryPut? && HasSuspended(j.life.rows)) || (e.Answer? && Misses(j.life, e.a)))
  }

  predicate NoneAbandons(r: RunId, events: seq<Event>) {
    events != [] ==>
      (var k := |events| - 1;
       NoneAbandons(r, events[..k]) && !Abandons(r, History(r, events[..k]), events[k]))
  }

  lemma OneWaitingAfter(r: RunId, events: seq<Event>, e: Event)
    requires OnTime(r, events) && OneWaiting(History(r, events).life)
    ensures OneWaiting(After(r, History(r, events), e).life) <==> !Abandons(r, History(r, events), e)
  {
    var (j, l) := (History(r, events), LifeMove(e));
    AlwaysAgree(r, events);
    if Possible(r, j, e) && l.Some? {
      OnTimeIsQuiet(r, events, e);
      PossibleForBoth(r, j, e);
      OneWaitingKeptIff(j.life, l.value);
    }
  }

  ghost predicate AlwaysOneWaits(r: RunId, events: seq<Event>) {
    OneWaiting(History(r, events).life) && (events != [] ==> AlwaysOneWaits(r, events[..|events| - 1]))
  }

  /** With every schedule in time: at most one row waits, and only while the run is suspended, in every
      state, if and only if no retry writes over a waiting row and no claim misses it. */
  lemma {:induction false} OneWaitingOnTime(r: RunId, events: seq<Event>)
    requires OnTime(r, events)
    ensures AlwaysOneWaits(r, events) <==> NoneAbandons(r, events)
  {
    if events != [] {
      var k := |events| - 1;
      OneWaitingOnTime(r, events[..k]);
      if AlwaysOneWaits(r, events[..k]) {
        assert OneWaiting(History(r, events[..k]).life);
        OneWaitingAfter(r, events[..k], events[k]);
      }
    }
  }

  // ------------------------------------------------------------------ what else follows

  /** A claim that fails the last row of a step although it has been settled since it was read. */
  predicate Undoes(r: RunId, j: Joint, e: Event) {
    Possible(r, j, e) && e.Answer? && Unsettles(j.life, e.a)
  }

  predicate NoneUndoes(r: RunId, events: seq<Event>) {
    events != [] ==>
      (var k := |events| - 1;
       NoneUndoes(r, events[..k]) && !Undoes(r, History(r, events[..k]), events[k]))
  }

  lemma {:induction false} OnTimeIsAware(r: RunId, events: seq<Event>)
    requires OnTime(r, events)
    ensures StateInv(History(r, events).life) && Aware(History(r, events).life)
  {
    AlwaysAgree(r, events);
    if events != [] {
      var (before, e) := (events[..|events| - 1], events[|events| - 1]);
      OnTimeIsAware(r, before);
      if Possible(r, History(r, before), e) && LifeMove(e).Some? {
        OnTimeIsQuiet(r, before, e);
        AwareKept(History(r, before).life, LifeMove(e).value);
      }
    }
  }

  lemma SettledAfter(r: RunId, events: seq<Event>, e: Event, n: Name)
    requires OnTime(r, events) && Settled(History(r, events).life.rows, n) && !Undoes(r, History(r, events), e)
    ensures var (w, v) := (History(r, events).life, After(r, History(r, events), e).life);
      Settled(v.rows, n) && LastIndex(v.rows, n) == LastIndex(w.rows, n)
  {
    var (j, l) := (History(r, events), LifeMove(e));
    OnTimeIsAware(r, events);
    if Possible(r, j, e) && l.Some? {
      SettledNotReached(j.life, l.value, n);
      RestingRowKept(j.life, l.value, n);
      SettledKeptIff(j.life, l.value, n);
    }
  }

  /** With every schedule in time, and no claim that fails a settled row: a step that was settled at any
      moment is settled for ever after, by the same row. */
  lemma {:induction false} SettledOnTime(r: RunId, events: seq<Event>, i: nat, n: Name)
    requires i <= |events| && OnTime(r, events) && NoneUndoes(r, events)
    requires Settled(History(r, events[..i]).life.rows, n)
    ensures Settled(History(r, events).life.rows, n)
    ensures LastIndex(History(r, events).life.rows, n) == LastIndex(History(r, events[..i]).life.rows, n)
  {
    if i == |events| {
      assert events[..i] == events;
    } else {
      var k := |events| - 1;
      assert events[..k][..i] == events[..i];
      SettledOnTime(r, events[..k], i, n);
      SettledAfter(r, events[..k], events[k], n);
    }
  }

  /** Every schedule in time, no retry over a waiting row, no claim on a stale read, and a deterministic
      workflow. */
  ghost predicate Orderly(r: RunId, events: seq<Event>, spec: seq<Name>, act: Behaviour) {
    events != [] ==>
      (var k := |events| - 1;
       var (j, e) := (History(r, events[..k]), events[k]);
       && Orderly(r, events[..k], spec, act)
       && (Possible(r, j, e) ==>
             && !Late(r, j, e) && !(e.RetryPut? && HasSuspended(j.life.rows)) && !(e.Answer? && Stale(j.life, e.a))
             && (LifeMove(e).Some? ==> Follows(j.life, LifeMove(e).value, spec, act))))
  }

  lemma {:induction false} OrderlyIsOnTime(r: RunId, events: seq<Event>, spec: seq<Name>, act: Behaviour)
    requires Orderly(r, events, spec, act)
    ensures OnTime(r, events) && NoneAbandons(r, events)
  {
    if events != [] { OrderlyIsOnTime(r, events[..|events| - 1], spec, act); }
  }

  lemma OrderlyStep(r: RunId, events: seq<Event>, e: Event, spec: seq<Name>, act: Behaviour)
    requires OnTime(r, events) && OneWaiting(History(r, events).life)
    requires Possible(r, History(r, events), e) && LifeMove(e).Some?
    requires var j := History(r, events);
      && !(e.RetryPut? && HasSuspended(j.life.rows)) && !(e.Answer? && Stale(j.life, e.a))
      && Follows(j.life, LifeMove(e).value, spec, act)
    ensures Deterministic(History(r, events).life, LifeMove(e).value, spec, act)
  {
    OnTimeIsQuiet(r, events, e);
  }

  lemma {:induction false} OrderlyIsDeterministic(r: RunId, events: seq<Event>, spec: seq<Name>, act: Behaviour)
    requires Orderly(r, events, spec, act)
    ensures DeterministicRun(LifeActions(r, events), spec, act)
  {
    if events != [] {
      var k := |events| - 1;
      var (j, e, before) := (History(r, events[..k]), events[k], LifeActions(r, events[..k]));
      OrderlyIsDeterministic(r, events[..k], spec, act);
      HistoryProjects(r, events[..k]);
      OrderlyIsOnTime(r, events[..k], spec, act);
      OneWaitingOnTime(r, events[..k]);
      assert OneWaiting(j.life);
      if Possible(r, j, e) && LifeMove(e).Some? {
        OrderlyStep(r, events[..k], e, spec, act);
        assert LifeActions(r, events) == before + [LifeMove(e).value];
        assert (before + [LifeMove(e).value])[..|before|] == before;
      } else {
        assert LifeActions(r, events) == before;
      }
    }
  }

  /** Run by threads, in any interleaving that is orderly: the restorable results are always those of
      the straight pass over a prefix of the workflow, and of the whole pass when the run is completed. */
  lemma OrderlyRefinesOnePass(r: RunId, events: seq<Event>, spec: seq<Name>, act: Behaviour) returns (k: nat)
    requires Distinct(spec) && Orderly(r, events, spec, act)
    ensures var w := History(r, events).life;
      && k <= |spec|
      && SettledResults(w.rows) == StraightPass(spec[..k], act, w.gates)
      && (w.status == Completed ==> SettledResults(w.rows) == StraightPass(spec, act, w.gates))
  {
    OrderlyIsDeterministic(r, events, spec, act);
    HistoryProjects(r, events);
    k := SegmentsRefineOnePass(LifeActions(r, events), spec, act);
  }

  // ------------------------------------------------------------------ what goes wrong otherwise

  lemma Extend(r: RunId, events: seq<Event>, j: Joint, e: Event, k: Joint) returns (more: seq<Event>)
    requires History(r, events) == j && After(r, j, e) == k
    ensures more == events + [e] && events <= more && History(r, more) == k
    ensures OnTime(r, more) <==> OnTime(r, events) && !Late(r, j, e)
  {
    more := events + [e];
    OneMore(r, events, e);
  }

  function By(kind: SuspensionKind): Suspension { SuspensionOf(kind, "", 0.0, Absent, Absent) }

  const ByGate := By(AtGate)

  /** Thread `t` of `w` moved to `p`. */
  function At(w: Scheduler.World, t: nat, p: Scheduler.Phase): Scheduler.World
    requires t in w.threads
  {
    Scheduler.Move(w, t, p)
  }

  function Loading(w: World): World {
    w.(seg := Some(Segment(Loaded, SettledNames(w.rows), SettledResults(w.rows), ApprovedNames(w.rows), [], 0)))
  }

  /** A pending thread takes the free id and enters `execute_run`. */
  lemma Enter(r: RunId, events: seq<Event>, j: Joint, t: nat) returns (more: seq<Event>, k: Joint)
    requires History(r, events) == j && Mine(r, j.process, t, Scheduler.Pending)
    requires r !in j.process.running && j.life.seg.None?
    ensures History(r, more) == k
    ensures k == Joint(At(j.process, t, Scheduler.Executing).(running := j.process.running + {r}), Loading(j.life))
    ensures OnTime(r, more) <==> OnTime(r, events) && j.life.status == Queued
  {
    k := Joint(At(j.process, t, Scheduler.Reserved).(running := j.process.running + {r}), j.life);
    more := Extend(r, events, j, CallSchedule(t), k);
    var l := Joint(At(k.process, t, Scheduler.Executing), Loading(j.life));
    more := Extend(r, more, k, Begin(t), l);
    k := l;
  }

  /** A worker returns from `execute_run` and gives the id back. */
  lemma Return(r: RunId, events: seq<Event>, j: Joint, t: nat) returns (more: seq<Event>, k: Joint)
    requires History(r, events) == j && Mine(r, j.process, t, Scheduler.Executing) && j.life.seg.None?
    ensures History(r, more) == k
    ensures k == Joint(At(j.process, t, Scheduler.Rechecking).(running := j.process.running - {r}), j.life)
    ensures OnTime(r, more) <==> OnTime(r, events)
  {
    k := Joint(At(j.process, t, Scheduler.TearingDown), j.life);
    more := Extend(r, events, j, Leave(t), k);
    var l := Joint(At(k.process, t, Scheduler.Rechecking).(running := j.process.running - {r}), j.life);
    more := Extend(r, more, k, Release(t), l);
    k := l;
  }

  /** A step of the worker's segment that commits `status`, or leaves it as it is. */
  lemma Commit(r: RunId, events: seq<Event>, j: Joint, t: nat, a: Action, w: World) returns (more: seq<Event>, k: Joint)
    requires History(r, events) == j && SameStatus(r, j)
    requires Mine(r, j.process, t, Scheduler.Executing) && OfSegment(a) && !a.Load? && Enabled(j.life, a)
    requires Step(j.life, a) == w && w.status != Queued
    ensures events <= more && History(r, more) == k && SameStatus(r, k)
    ensures k == Joint(j.process.(status := j.process.status[r := w.status]), w)
    ensures OnTime(r, more) <==> OnTime(r, events)
  {
    k := Joint(j.process.(status := j.process.status[r := w.status]), w);
    assert w.status == j.life.status ==> j.process.status[r := w.status] == j.process.status;
    more := Extend(r, events, j, Inside(t, a), k);
  }

  function MidPlan(w: World, n: Name): World
    requires w.seg.Some?
  {
    w.(status := Running, seg := Some(w.seg.value.(phase := AtStep, plan := [n], pos := 0)))
  }

  function MidStep(w: World, n: Name): World
    requires w.seg.Some?
  {
    MidPlan(w, n).(rows := Append(w.rows, n, StepRunning),
                   seg := Some(w.seg.value.(phase := InStep(|w.rows|), plan := [n], pos := 0)))
  }

  /** A segment that has just read its rows, and knows nothing of `n`, starts `n`. */
  lemma StartStepIn(r: RunId, events: seq<Event>, j: Joint, t: nat, n: Name) returns (more: seq<Event>, k: Joint)
    requires History(r, events) == j && SameStatus(r, j) && Mine(r, j.process, t, Scheduler.Executing)
    requires In(j.life, Loaded) && n !in j.life.seg.value.completed
    ensures events <= more && History(r, more) == k && SameStatus(r, k)
    ensures k == Joint(j.process.(status := j.process.status[r := Running]), MidStep(j.life, n))
    ensures OnTime(r, more) <==> OnTime(r, events)
  {
    var s := j.life.seg.value;
    more, k := Commit(r, events, j, t, MarkRunning, j.life.(status := Running, seg := Some(s.(phase := Planning))));
    more, k := Commit(r, more, k, t, MakePlan([n]), MidPlan(j.life, n));
    more, k := Commit(r, more, k, t, StartStep, MidStep(j.life, n));
  }

  /** And is suspended there. */
  lemma SuspendAt(r: RunId, events: seq<Event>, j: Joint, t: nat, n: Name, kind: SuspensionKind)
    returns (more: seq<Event>, k: Joint)
    requires History(r, events) == j && SameStatus(r, j) && Mine(r, j.process, t, Scheduler.Executing)
    requires In(j.life, Loaded) && n !in j.life.seg.value.completed
    requires kind == Escalation(true) ==> n !in j.life.seg.value.approvals
    ensures History(r, more) == k && SameStatus(r, k)
    ensures k.process == j.process.(status := j.process.status[r := Suspended])
    ensures k.life == j.life.(status := Suspended, error := Some(By(kind)), seg := None,
                              rows := Append(j.life.rows, n, StepSuspended))
    ensures OnTime(r, more) <==> OnTime(r, events)
  {
    more, k := StartStepIn(r, events, j, t, n);
    var rows := Append(j.life.rows, n, StepSuspended);
    assert SetRow(k.life.rows, |j.life.rows|, StepSuspended, None) == rows;
    more, k := Commit(r, more, k, t, Suspend(kind, "", 0.0, Absent, Absent, n),
                      j.life.(status := Suspended, error := Some(By(kind)), seg := None, rows := rows));
  }

  /** A pending thread takes the free id and works until the run is suspended at `n`. */
  lemma RunTo(r: RunId, events: seq<Event>, j: Joint, t: nat, n: Name, kind: SuspensionKind)
    returns (more: seq<Event>, k: Joint)
    requires History(r, events) == j && SameStatus(r, j) && Mine(r, j.process, t, Scheduler.Pending)
    requires r !in j.process.running && j.life.seg == None
    requires n !in SettledNames(j.life.rows) && n !in ApprovedNames(j.life.rows)
    ensures History(r, more) == k && SameStatus(r, k)
    ensures k.process == At(j.process, t, Scheduler.Executing).(
                           status := j.process.status[r := Suspended], running := j.process.running + {r})
    ensures k.life == j.life.(status := Suspended, error := Some(By(kind)),
                              rows := Append(j.life.rows, n, StepSuspended))
    ensures OnTime(r, more) <==> OnTime(r, events) && j.life.status == Queued
  {
    more, k := Enter(r, events, j, t);
    more, k := SuspendAt(r, more, k, t, n, kind);
  }

  lemma OtherIsNew(x: Row, n: Name)
    requires x.name != n
    ensures n !in SettledNames([x]) && n !in ApprovedNames([x])
    ensures Append([x], n, StepSuspended) == [x, Row(n, 1, StepSuspended, None)]
  {
    assert [x][..0] == [];
    assert MaxAttempt([x], n) == 0;
  }

  /** After a single row of another step. */
  lemma RunToSecond(r: RunId, events: seq<Event>, j: Joint, t: nat, x: Row, n: Name, kind: SuspensionKind)
    returns (more: seq<Event>, k: Joint)
    requires History(r, events) == j && SameStatus(r, j) && Mine(r, j.process, t, Scheduler.Pending)
    requires r !in j.process.running && j.life.seg == None && j.life.rows == [x] && x.name != n
    ensures History(r, more) == k && SameStatus(r, k)
    ensures k.process == At(j.process, t, Scheduler.Executing).(
                           status := j.process.status[r := Suspended], running := j.process.running + {r})
    ensures k.life == j.life.(status := Suspended, error := Some(By(kind)),
                              rows := [x, Row(n, 1, StepSuspended, None)])
    ensures OnTime(r, more) <==> OnTime(r, events) && j.life.status == Queued
  {
    OtherIsNew(x, n);
    more, k := RunTo(r, events, j, t, n, kind);
  }

  /** A caller asks for a retry of a failed run, and sees it failed. */
  lemma LooksToRetry(r: RunId, events: seq<Event>, j: Joint) returns (more: seq<Event>, k: Joint)
    requires History(r, events) == j && SameStatus(r, j) && Enabled(j.life, RetryRead)
    ensures History(r, more) == k && SameStatus(r, k)
    ensures k.process == Scheduler.Spawn(j.process, r, Scheduler.ReadFailed)
    ensures k.life == j.life.(retriers := j.life.retriers + 1)
    ensures OnTime(r, more) <==> OnTime(r, events)
  {
    k := Joint(Scheduler.Spawn(j.process, r, Scheduler.ReadFailed), j.life.(retriers := j.life.retriers + 1));
    more := Extend(r, events, j, RetryLook, k);
  }

  /** It writes, whatever the run has become. */
  lemma WritesRetry(r: RunId, events: seq<Event>, j: Joint, t: nat) returns (more: seq<Event>, k: Joint)
    requires History(r, events) == j && SameStatus(r, j) && Mine(r, j.process, t, Scheduler.ReadFailed)
    requires j.life.retriers > 0
    ensures more == events + [RetryPut(t)] && History(r, more) == k && SameStatus(r, k)
    ensures k.process == At(j.process, t, Scheduler.Pending).(status := j.process.status[r := Queued])
    ensures k.life == j.life.(status := Queued, error := None, retriers := j.life.retriers - 1)
    ensures OnTime(r, more) <==> OnTime(r, events)
  {
    k := Joint(At(j.process, t, Scheduler.Pending).(status := j.process.status[r := Queued]),
               j.life.(status := Queued, error := None, retriers := j.life.retriers - 1));
    more := Extend(r, events, j, RetryPut(t), k);
  }

  /** A caller reads the run and its waiting row. */
  lemma ReadsIt(r: RunId, events: seq<Event>, j: Joint, i: nat) returns (more: seq<Event>, k: Joint)
    requires History(r, events) == j && i < |j.life.rows| && j.life.rows[i].status == StepSuspended
    ensures History(r, more) == k
    ensures k == j.(life := j.life.(callers := j.life.callers + [Caller(j.life.error, Some(i), true)]))
    ensures OnTime(r, more) <==> OnTime(r, events)
  {
    var c := |j.life.callers|;
    k := j.(life := j.life.(callers := j.life.callers + [Caller(j.life.error, None, false)]));
    more := Extend(r, events, j, Look(ReadRun), k);
    var l := j.(life := j.life.(callers := j.life.callers + [Caller(j.life.error, Some(i), true)]));
    assert k.life.callers[c := Caller(j.life.error, Some(i), true)] == l.life.callers;
    more := Extend(r, more, k, Look(ReadRow(c, Some(i))), l);
    k := l;
  }

  /** A caller claims the run; the resumer becomes a thread that will call `schedule`. */
  lemma Claim(r: RunId, events: seq<Event>, j: Joint, a: Action) returns (more: seq<Event>, k: Joint)
    requires History(r, events) == j && SameStatus(r, j) && (a.Resume? || a.Reject?) && Enabled(j.life, a)
    ensures History(r, more) == k && k.life == Step(j.life, a) && more == events + [Answer(a)]
    ensures SameStatus(r, k)
    ensures forall t: nat, p :: Mine(r, j.process, t, p) && t < j.process.next ==> Mine(r, k.process, t, p)
    ensures k.process == if a.Resume? then Scheduler.Step(j.process, Scheduler.Resume(r))
                         else Scheduler.Step(j.process, Scheduler.TimeOut(r))
    ensures OnTime(r, more) <==> OnTime(r, events)
  {
    k := After(r, j, Answer(a));
    more := Extend(r, events, j, Answer(a), k);
  }

  const ReadAtGate := Caller(Some(ByGate), Some(0), true)

  function Waiting1(g: Name): Row {
    Row(g, 1, StepSuspended, None)
  }

  function Done1(g: Name, data: Output): Row {
    Row(g, 1, StepCompleted, Some(data.(truthy := true)))
  }

  /** Two callers have read the run at the gate `g`, and the second has answered it. */
  function Answered1(g: Name, data: Output): World {
    World(Queued, None, [Done1(g, data)], None, 0, [ReadAtGate, ReadAtGate], map[g := data.(truthy := true)])
  }

  /** And then the run has gone on to the gate `h`. */
  function Waiting2(g: Name, h: Name, data: Output): World {
    Answered1(g, data).(status := Suspended, error := Some(ByGate), rows := [Done1(g, data), Waiting1(h)])
  }

  /** The worker runs to the gate `g`; two callers read the run while it waits there. */
  lemma AtFirstGate(r: RunId, g: Name) returns (events: seq<Event>, j: Joint)
    ensures History(r, events) == j && OnTime(r, events)
    ensures j.process ==
              Scheduler.World(map[r := Suspended], {r}, map[0 := Scheduler.Thread(r, Scheduler.Executing)], 1)
    ensures j.life == World(Suspended, Some(ByGate), [Waiting1(g)], None, 0, [ReadAtGate, ReadAtGate], map[])
  {
    events, j := RunTo(r, [], Born(r), 0, g, AtGate);
    assert j.life.rows == [Waiting1(g)];
    events, j := ReadsIt(r, events, j, 0);
    events, j := ReadsIt(r, events, j, 0);
    assert j.life.callers == [ReadAtGate, ReadAtGate];
  }

  /** The second caller resumes, and the worker gives the id back. */
  lemma GateAnswered(r: RunId, g: Name, data: Output) returns (events: seq<Event>, j: Joint)
    ensures History(r, events) == j && OnTime(r, events)
    ensures j.process == Scheduler.World(map[r := Queued], {}, map[0 := Scheduler.Thread(r, Scheduler.Rechecking),
                                                                   1 := Scheduler.Thread(r, Scheduler.Pending)], 2)
    ensures j.life == Answered1(g, data)
  {
    events, j := AtFirstGate(r, g);
    events, j := Claim(r, events, j, Resume(1, data, false));
    assert j.life.rows == [Done1(g, data)];
    events, j := Return(r, events, j, 0);
  }

  lemma OnlyFirstSettled(g: Name, data: Output, rest: seq<Row>, h: Name)
    requires g != h && (rest == [] || rest == [Waiting1(h)])
    ensures h !in SettledNames([Done1(g, data)] + rest)
    ensures MaxAttempt([Done1(g, data)], h) == 0
    ensures Settled([Done1(g, data)] + rest, g)
  {
    var rows := [Done1(g, data)] + rest;
    LastIndexIs(rows, g, 0);
    if rest != [] {
      LastIndexIs(rows, h, 1);
    } else {
      assert forall i :: 0 <= i < |rows| ==> rows[i].name != h;
    }
  }

  /** Thread `t` calls `schedule` for the answered run and runs it to the gate `h`. */
  lemma GateToGate(r: RunId, events: seq<Event>, j: Joint, t: nat, g: Name, h: Name, data: Output)
    returns (more: seq<Event>, k: Joint)
    requires g != h && History(r, events) == j && SameStatus(r, j) && j.life == Answered1(g, data)
    requires Mine(r, j.process, t, Scheduler.Pending) && r !in j.process.running
    ensures History(r, more) == k && SameStatus(r, k) && k.life == Waiting2(g, h, data)
    ensures k.process == At(j.process, t, Scheduler.Executing).(
                           status := j.process.status[r := Suspended], running := j.process.running + {r})
    ensures OnTime(r, more) <==> OnTime(r, events)
  {
    more, k := RunToSecond(r, events, j, t, Done1(g, data), h, AtGate);
  }

  /** The resumer's own `schedule` arrives in time; the run goes on to the gate `h` and waits there. */
  lemma AtSecondGate(r: RunId, g: Name, h: Name, data: Output) returns (events: seq<Event>, j: Joint)
    requires g != h
    ensures History(r, events) == j && OnTime(r, events) && SameStatus(r, j) && j.life == Waiting2(g, h, data)
  {
    events, j := GateAnswered(r, g, data);
    events, j := GateToGate(r, events, j, 1, g, h, data);
  }

  /** Every schedule is in time, and still: the first caller, which read while `g` waited, resumes a run
      that waits at `h` by now. The run is queued with `h` still waiting, and the answer to `g` that the
      run has gone on with is replaced. */
  lemma StaleResume(r: RunId, g: Name, h: Name, data: Output, other: Output) returns (events: seq<Event>)
    requires g != h
    ensures OnTime(r, events) && events != [] && events[|events| - 1] == Answer(Resume(0, other, false))
    ensures var (before, w) := (History(r, events[..|events| - 1]).life, History(r, events).life);
      && OneWaiting(before) && before.rows == [Done1(g, data), Waiting1(h)]
      && w.status == Queued && !OneWaiting(w) && w.rows == [Done1(g, other), Waiting1(h)]
  {
    var j, k;
    events, j := AtSecondGate(r, g, h, data);
    events, k := Claim(r, events, j, Resume(0, other, false));
    assert events[..|events| - 1] + [Answer(Resume(0, other, false))] == events;
    assert k.life.rows == [Done1(g, other), Waiting1(h)];
    assert k.life.rows[1].status == StepSuspended;
    assert History(r, events[..|events| - 1]) == j;
  }

  lemma FailedNotSettled(g: Name, data: Output, h: Name)
    requires g != h
    ensures Settled([Done1(g, data), Waiting1(h)], g)
    ensures !Settled([Done1(g, data).(status := StepFailed), Waiting1(h)], g)
  {
    LastIndexIs([Done1(g, data), Waiting1(h)], g, 0);
    LastIndexIs([Done1(g, data).(status := StepFailed), Waiting1(h)], g, 0);
  }

  /** Likewise it rejects: the settled `g` is failed, and `h` is left waiting in a failed run. */
  lemma StaleReject(r: RunId, g: Name, h: Name, data: Output) returns (events: seq<Event>)
    requires g != h
    ensures OnTime(r, events) && events != [] && events[|events| - 1] == Answer(Reject(0, None))
    ensures var (before, w) := (History(r, events[..|events| - 1]).life, History(r, events).life);
      && OneWaiting(before) && Settled(before.rows, g)
      && w.status == Failed && !OneWaiting(w) && !Settled(w.rows, g) && w.rows[1] == Waiting1(h)
  {
    var j, k;
    events, j := AtSecondGate(r, g, h, data);
    events, k := Claim(r, events, j, Reject(0, None));
    assert History(r, events[..|events| - 1]) == j;
    assert k.life.rows == [Done1(g, data).(status := StepFailed), Waiting1(h)];
    FailedNotSettled(g, data, h);
    assert k.life.rows[1].status == StepSuspended;
  }

  lemma Rechecks(r: RunId, events: seq<Event>, j: Joint, t: nat) returns (more: seq<Event>, k: Joint)
    requires History(r, events) == j && SameStatus(r, j) && Mine(r, j.process, t, Scheduler.Rechecking)
    ensures History(r, more) == k && SameStatus(r, k) && k.life == j.life
    ensures k.process ==
              if j.life.status == Queued then At(j.process, t, Scheduler.Pending) else Scheduler.Exit(j.process, t)
    ensures OnTime(r, more) <==> OnTime(r, events)
  {
    k := j.(process := Scheduler.Step(j.process, Scheduler.Recheck(t)));
    more := Extend(r, events, j, Recheck(t), k);
  }

  /** The worker's re-check stands in for the resumer's `schedule`, runs to the gate `h` and is done, and
      only then does that `schedule` arrive: a segment loads a suspended run. */
  lemma LateSegment(r: RunId, g: Name, h: Name, data: Output) returns (events: seq<Event>, j: Joint)
    requires g != h
    ensures History(r, events) == j && SameStatus(r, j) && !OnTime(r, events)
    ensures Mine(r, j.process, 1, Scheduler.Executing) && 1 < j.process.next
    ensures j.life == Loading(Waiting2(g, h, data))
    ensures h !in j.life.seg.value.completed
  {
    events, j := GateAnswered(r, g, data);
    events, j := Rechecks(r, events, j, 0);
    events, j := GateToGate(r, events, j, 0, g, h, data);
    events, j := Return(r, events, j, 0);
    events, j := Rechecks(r, events, j, 0);
    events, j := Enter(r, events, j, 1);
    OnlyFirstSettled(g, data, [Waiting1(h)], h);
    assert [Done1(g, data)] + [Waiting1(h)] == [Done1(g, data), Waiting1(h)];
  }

  /** The late segment reopens the waiting gate: two rows wait at once. */
  lemma LateSegmentReopensGate(r: RunId, g: Name, h: Name, data: Output) returns (events: seq<Event>)
    requires g != h
    ensures var w := History(r, events).life;
      w.status == Suspended && w.rows == [Done1(g, data), Waiting1(h), Row(h, 2, StepSuspended, None)]
  {
    var j;
    events, j := LateSegment(r, g, h, data);
    OnlyFirstSettled(g, data, [], h);
    var rows := [Done1(g, data), Waiting1(h)];
    assert rows[..1] == [Done1(g, data)];
    assert MaxAttempt(rows, h) == 1;
    events, j := SuspendAt(r, events, j, 1, h, AtGate);
    assert j.life.rows == rows + [Row(h, 2, StepSuspended, None)];
  }

  /** A caller reads the run while the late segment is about to start, and resumes it. */
  lemma BlindResume(r: RunId, g: Name, h: Name, data: Output, more: Output)
    returns (events: seq<Event>, j: Joint, claim: Action, k: Joint)
    requires g != h
    ensures History(r, events) == j && Blind(j.life, claim)
    ensures History(r, events + [Answer(claim)]) == k && SameStatus(r, k)
    ensures k.life.rows == [Done1(g, data), Done1(h, more)]
    ensures In(k.life, Loaded) && h !in k.life.seg.value.completed && Mine(r, k.process, 1, Scheduler.Executing)
  {
    events, j := LateSegment(r, g, h, data);
    events, j := ReadsIt(r, events, j, 1);
    claim := Resume(2, more, false);
    assert j.life.callers[2] == Caller(Some(ByGate), Some(1), true);
    LastIndexIs(j.life.rows, h, 1);
    var after;
    after, k := Claim(r, events, j, claim);
    assert k.life.rows == [Done1(g, data), Done1(h, more)];
  }

  lemma BothSettled(g: Name, h: Name, data: Output, more: Output)
    requires g != h
    ensures Settled([Done1(g, data), Done1(h, more)], h)
    ensures !Settled(Append([Done1(g, data), Done1(h, more)], h, StepRunning), h)
  {
    LastIndexIs([Done1(g, data), Done1(h, more)], h, 1);
    LatestAfterAppend([Done1(g, data), Done1(h, more)], h, StepRunning, h);
  }

  /** Or a caller answers `h` behind the late segment's back: its resume is blind, and the segment opens
      the settled gate again. */
  lemma LateSegmentForgets(r: RunId, g: Name, h: Name, data: Output, more: Output)
    returns (events: seq<Event>, claim: Action, later: seq<Event>)
    requires g != h
    ensures Blind(History(r, events).life, claim)
    ensures Settled(History(r, events + [Answer(claim)]).life.rows, h)
    ensures events + [Answer(claim)] <= later && !Settled(History(r, later).life.rows, h)
  {
    var j, k;
    events, j, claim, k := BlindResume(r, g, h, data, more);
    later, k := StartStepIn(r, events + [Answer(claim)], k, 1, h);
    BothSettled(g, h, data, more);
  }

  // ------------------------------------------------------------------ an answer to another kind of suspension

  /** What a resume that read `kind` makes of a step's first row. */
  function Resumed1(n: Name, kind: SuspensionKind, data: Output): Row {
    if kind == Escalation(true)
    then Row(n, 1, StepFailed, Some(data.(truthy := true, escalationApproved := true)))
    else Done1(n, data)
  }

  /** One caller has read the error of the first suspension and no row yet, another one both. */
  function HalfRead(kind: SuspensionKind): seq<Caller> {
    [Caller(Some(By(kind)), None, false), Caller(Some(By(kind)), Some(0), true)]
  }

  lemma HalfReads(r: RunId, events: seq<Event>, j: Joint, kind: SuspensionKind) returns (more: seq<Event>, k: Joint)
    requires History(r, events) == j && j.life.rows != [] && j.life.rows[0].status == StepSuspended
    requires j.life.error == Some(By(kind)) && j.life.callers == []
    ensures History(r, more) == k && k == j.(life := j.life.(callers := HalfRead(kind)))
    ensures OnTime(r, more) <==> OnTime(r, events)
  {
    k := j.(life := j.life.(callers := [Caller(Some(By(kind)), None, false)]));
    more := Extend(r, events, j, Look(ReadRun), k);
    more, k := ReadsIt(r, more, k, 0);
    assert k.life.callers == HalfRead(kind);
  }

  lemma FirstSuspended(r: RunId, g: Name, kind: SuspensionKind) returns (events: seq<Event>, j: Joint)
    ensures History(r, events) == j && OnTime(r, events) && SameStatus(r, j)
    ensures j.process ==
              Scheduler.World(map[r := Suspended], {r}, map[0 := Scheduler.Thread(r, Scheduler.Executing)], 1)
    ensures j.life == World(Suspended, Some(By(kind)), [Waiting1(g)], None, 0, HalfRead(kind), map[])
  {
    events, j := RunTo(r, [], Born(r), 0, g, kind);
    assert j.life.rows == [Waiting1(g)];
    events, j := HalfReads(r, events, j, kind);
  }

  lemma FirstAnswered(r: RunId, g: Name, kind: SuspensionKind, data: Output) returns (events: seq<Event>, j: Joint)
    ensures History(r, events) == j && OnTime(r, events) && SameStatus(r, j)
    ensures Mine(r, j.process, 1, Scheduler.Pending) && r !in j.process.running
    ensures j.life.rows == [Resumed1(g, kind, data)] && j.life.status == Queued && j.life.seg == None
    ensures j.life.callers == HalfRead(kind)
  {
    events, j := FirstSuspended(r, g, kind);
    events, j := Claim(r, events, j, Resume(1, data, false));
    assert j.life.rows == [Resumed1(g, kind, data)];
    events, j := Return(r, events, j, 0);
  }

  /** The run goes on to `h`, and is suspended there for any other reason. */
  lemma SecondSuspended(r: RunId, g: Name, kind: SuspensionKind, h: Name, kind2: SuspensionKind, data: Output)
    returns (events: seq<Event>, j: Joint)
    requires g != h
    ensures History(r, events) == j && OnTime(r, events) && SameStatus(r, j)
    ensures j.life.rows == [Resumed1(g, kind, data), Waiting1(h)] && j.life.status == Suspended && j.life.seg == None
    ensures j.life.error == Some(By(kind2)) && j.life.callers == HalfRead(kind)
  {
    events, j := FirstAnswered(r, g, kind, data);
    events, j := RunToSecond(r, events, j, 1, Resumed1(g, kind, data), h, kind2);
  }

  lemma SecondResumed(g: Name, kind: SuspensionKind, data: Output, h: Name, other: Output)
    requires g != h
    ensures var rows := [Resumed1(g, kind, data), Resumed1(h, kind, other)];
      && (Settled(rows, h) <==> kind != Escalation(true)) && (Approved(rows, h) <==> kind == Escalation(true))
  {
    LastIndexIs([Resumed1(g, kind, data), Resumed1(h, kind, other)], h, 1);
  }

  /** The callback has read the error at the first suspension, and reads the row at the second. */
  lemma SecondRead(r: RunId, g: Name, kind: SuspensionKind, h: Name, kind2: SuspensionKind, data: Output)
    returns (events: seq<Event>, j: Joint)
    requires g != h
    ensures History(r, events) == j && OnTime(r, events) && SameStatus(r, j)
    ensures j.life.rows == [Resumed1(g, kind, data), Waiting1(h)] && j.life.callers != []
    ensures j.life.callers[0] == Caller(Some(By(kind)), Some(1), true)
    ensures WaitsAt(j.life, 1, kind2) && HasRead(j.life, 0, 1, kind == Escalation(true))
  {
    events, j := SecondSuspended(r, g, kind, h, kind2, data);
    var k := j.(life := j.life.(callers := j.life.callers[0 := Caller(Some(By(kind)), Some(1), true)]));
    events := Extend(r, events, j, Look(ReadRow(0, Some(1))), k);
    j := k;
    LastIndexIs(j.life.rows, h, 1);
  }

  /** Every schedule is in time, and the claim is of the row that waits. But the callback read the error
      at one suspension, of any kind, and the row at the next, of any other, and it is the first that
      decides: what was suspended before its tool ran is settled with the caller's data when the first
      was a gate, and a gate is approved as an escalation, to be asked again, when the first was one. */
  lemma MixedReads(r: RunId, g: Name, kind: SuspensionKind, h: Name, kind2: SuspensionKind, data: Output, other: Output)
    returns (events: seq<Event>)
    requires g != h
    ensures OnTime(r, events) && events != [] && events[|events| - 1] == Answer(Resume(0, other, true))
    ensures var (before, w) := (History(r, events[..|events| - 1]).life, History(r, events).life);
      && WaitsAt(before, 1, kind2) && before.rows[1] == Waiting1(h)
      && w.status == Queued && w.rows == [Resumed1(g, kind, data), Resumed1(h, kind, other)]
      && (Settled(w.rows, h) <==> kind != Escalation(true)) && (Approved(w.rows, h) <==> kind == Escalation(true))
  {
    var j, k;
    events, j := SecondRead(r, g, kind, h, kind2, data);
    events, k := Claim(r, events, j, Resume(0, other, true));
    assert History(r, events[..|events| - 1]) == j;
    assert k.life.rows == [Resumed1(g, kind, data), Resumed1(h, kind, other)];
    SecondResumed(g, kind, data, h, other);
  }

  // ------------------------------------------------------------------ a retry that writes late

  function Failed1(g: Name): Row {
    Row(g, 1, StepFailed, None)
  }

  /** The first segment fails at `g`, and with it the run. */
  lemma FirstFails(r: RunId, g: Name) returns (events: seq<Event>, j: Joint)
    ensures History(r, events) == j && OnTime(r, events) && SameStatus(r, j)
    ensures j.process ==
              Scheduler.World(map[r := Failed], {r}, map[0 := Scheduler.Thread(r, Scheduler.Executing)], 1)
    ensures j.life == World(Failed, None, [Failed1(g)], None, 0, [], map[])
  {
    events, j := Enter(r, [], Born(r), 0);
    events, j := StartStepIn(r, events, j, 0, g);
    var w := j.life.(rows := [Failed1(g)], seg := Some(j.life.seg.value.(phase := Failing)));
    assert SetRow(j.life.rows, 0, StepFailed, None) == w.rows;
    events, j := Commit(r, events, j, 0, FailStep, w);
    var a := HandleFailure(FailRun, "", 0.0, Absent, Absent, Output("", false, false));
    events, j := Commit(r, events, j, 0, a, w.(status := Failed, error := None, seg := None));
  }

  lemma LatestFailed(g: Name)
    ensures HasFailedLatest([Failed1(g)])
  {
    LastIndexIs([Failed1(g)], g, 0);
    LatestInNames([Failed1(g)], g);
  }

  /** Two callers ask for a retry and see the failed run. */
  lemma TwoLook(r: RunId, g: Name) returns (events: seq<Event>, j: Joint)
    ensures History(r, events) == j && OnTime(r, events) && SameStatus(r, j)
    ensures Mine(r, j.process, 1, Scheduler.ReadFailed) && Mine(r, j.process, 2, Scheduler.ReadFailed)
    ensures r !in j.process.running
    ensures j.life == World(Failed, None, [Failed1(g)], None, 2, [], map[])
  {
    events, j := FirstFails(r, g);
    LatestFailed(g);
    events, j := LooksToRetry(r, events, j);
    events, j := LooksToRetry(r, events, j);
    events, j := Return(r, events, j, 0);
  }

  /** The first retry writes, schedules in time, and the run waits at the gate `h`. */
  lemma RetriedToGate(r: RunId, g: Name, h: Name) returns (events: seq<Event>, j: Joint)
    requires g != h
    ensures History(r, events) == j && OnTime(r, events) && SameStatus(r, j)
    ensures Mine(r, j.process, 2, Scheduler.ReadFailed)
    ensures j.life == World(Suspended, Some(ByGate), [Failed1(g), Waiting1(h)], None, 1, [], map[])
  {
    events, j := TwoLook(r, g);
    events, j := WritesRetry(r, events, j, 1);
    events, j := RunToSecond(r, events, j, 1, Failed1(g), h, AtGate);
  }

  /** Every schedule is in time and nobody answers anything, and still: the second retry, which saw the
      run failed, writes `queued` over a run that waits at a gate by now. */
  lemma LateRetry(r: RunId, g: Name, h: Name) returns (events: seq<Event>)
    requires g != h
    ensures OnTime(r, events) && events != [] && events[|events| - 1] == RetryPut(2)
    ensures var (before, w) := (History(r, events[..|events| - 1]), History(r, events).life);
      && OneWaiting(before.life) && before.life.status == Suspended && Abandons(r, before, RetryPut(2))
      && w.status == Queued && w.rows == [Failed1(g), Waiting1(h)] && !OneWaiting(w)
  {
    var j, k;
    events, j := RetriedToGate(r, g, h);
    assert j.life.rows[1].status == StepSuspended;
    events, k := WritesRetry(r, events, j, 2);
    assert History(r, events[..|events| - 1]) == j;
  }
}
