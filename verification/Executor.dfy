/** `execute_run`: one segment of a run, from restoring its context to completing, failing or
    suspending it. The main loop is shown to take only the segment's steps of `Lifecycle`, every tool
    it executes is cleared as `Gate` demands, and every attempt belongs to a row it started. */
module Executor {
  import opened Basics
  import opened RunModel
  import opened Lifecycle
  import RunStore
  import Gate

  datatype ErrorHandling = RetryStep | FailStepRun | EscalateStep | ContinueRun

  datatype Guard = Runs | Skips(marker: Output) | Malformed

  datatype Planned = Planned(step: Gate.PlanStep, handling: ErrorHandling, minutes: Param, seconds: Param)

  /** Planner, guards, budget, clock and tools, all arbitrary. */
  datatype Oracles = Oracles(
    tools: Gate.Env,
    plan: seq<Name> -> Option<seq<Planned>>,
    guard: (Planned, map<Name, Output>) -> Guard,
    withinBudget: nat -> bool,
    output: string -> Output,           // the JSON object behind a step's result
    errorOutput: nat -> Output,         // what a continued step leaves for later steps
    callback: nat -> string,
    time: nat -> real)

  function PlanNames(plan: seq<Planned>): (names: seq<Name>)
    ensures |names| == |plan| && forall i :: 0 <= i < |plan| ==> names[i] == plan[i].step.id
  {
    seq(|plan|, i requires 0 <= i < |plan| => plan[i].step.id)
  }

  // ------------------------------------------------------------------ what a segment goes by

  /** The oracles, the mode, the approvals on record, and the completed steps it began with. */
  datatype Brief = Brief(o: Oracles, mode: Gate.Mode, approvals: set<Name>, restored: seq<Name>)

  /** The plan in progress is what the planner made of the restored steps. */
  predicate OnPlan(b: Brief, w: World) {
    HasStep(w) && b.o.plan(b.restored).Some? && w.seg.value.plan == PlanNames(b.o.plan(b.restored).value)
  }

  function StepAt(b: Brief, w: World): Planned
    requires OnPlan(b, w)
  {
    b.o.plan(b.restored).value[w.seg.value.pos]
  }

  /** A verifier's escalation suspends for a step that has a row and no approval, and unless replans
      rename steps, that is the step in progress. */
  ghost predicate AsksRightly(b: Brief, w: World, asked: Name) {
    && asked !in b.approvals && asked in Names(w.rows) && HasStep(w)
    && (b.mode == Gate.Deterministic || Gate.ReplansKeepId(b.o.tools, Current(w)) ==> asked == Current(w))
  }

  /** The action is what the oracles call for: a step is started where the budget is kept and its guard
      answers that it runs, and skipped where the guard answers that it is skipped; a segment crashes only
      without a plan, over budget, for a malformed guard, or behind a failed step; and failures are handled
      and suspensions dated as the step says. */
  ghost predicate Obeys(b: Brief, w: World, a: Action) {
    match a
    case MakePlan(names) =>
      && b.o.plan(b.restored).Some? && names == PlanNames(b.o.plan(b.restored).value)
      && (b.mode == Gate.Agentic ==> b.o.withinBudget(|b.restored|))
    case StartStep =>
      OnPlan(b, w) && b.o.withinBudget(|w.rows|) && b.o.guard(StepAt(b, w), w.seg.value.results) == Runs
    case SkipGuarded(marker) =>
      OnPlan(b, w) && b.o.withinBudget(|w.rows|) && b.o.guard(StepAt(b, w), w.seg.value.results) == Skips(marker)
    case Crash =>
      || In(w, Failing)
      || (&& In(w, Planning)
          && (b.o.plan(b.restored).None? || (b.mode == Gate.Agentic && !b.o.withinBudget(|b.restored|))))
      || (&& In(w, AtStep) && OnPlan(b, w)
          && (!b.o.withinBudget(|w.rows|) || b.o.guard(StepAt(b, w), w.seg.value.results) == Malformed))
    case HandleFailure(handling, callback, _, minutes, seconds, marker) =>
      OnPlan(b, w) &&
      (match StepAt(b, w).handling
       case EscalateStep =>
         && handling == EscalateRun && callback == b.o.callback(w.seg.value.pos)
         && minutes == StepAt(b, w).minutes && seconds == StepAt(b, w).seconds
       case ContinueRun => handling == Continue && marker == b.o.errorOutput(w.seg.value.pos)
       case _ => handling == Handling.FailRun)
    case Suspend(kind, callback, _, minutes, seconds, asked) =>
      && OnPlan(b, w) && callback == b.o.callback(w.seg.value.pos)
      && minutes == StepAt(b, w).minutes && seconds == StepAt(b, w).seconds
      && (kind == Escalation(true) ==> AsksRightly(b, w, asked))
    case _ => true
  }

  // ------------------------------------------------------------------ what a segment did

  /** Every action is one of a segment, was possible when it was taken, and is what the oracles call for. */
  ghost predicate Conforms(start: World, acts: seq<Action>, b: Brief) {
    acts != [] ==>
      (var k := |acts| - 1;
       var w := Run(start, acts[..k]);
       Conforms(start, acts[..k], b) && OfSegment(acts[k]) && Enabled(w, acts[k]) && Obeys(b, w, acts[k]))
  }

  /** What `Conforms` says of the `k`-th action, wherever it stands. */
  lemma {:induction false} ConformsAt(start: World, acts: seq<Action>, b: Brief, k: nat)
    requires Conforms(start, acts, b) && k < |acts|
    ensures OfSegment(acts[k]) && Enabled(Run(start, acts[..k]), acts[k]) && Obeys(b, Run(start, acts[..k]), acts[k])
  {
    var init := acts[..|acts| - 1];
    if k < |init| {
      ConformsAt(start, init, b, k);
      assert init[k] == acts[k] && init[..k] == acts[..k];
    }
  }

  /** No step is started whose guard did not answer that it runs, and none is skipped, with the marker it
      left, whose guard did not answer so; both only within the budget. */
  lemma GuardsAreObeyed(start: World, acts: seq<Action>, b: Brief, k: nat, marker: Output)
    requires Conforms(start, acts, b) && k < |acts|
    requires acts[k] == StartStep || acts[k] == SkipGuarded(marker)
    ensures var w := Run(start, acts[..k]);
      && HasStep(w) && b.o.plan(b.restored).Some? && b.o.withinBudget(|w.rows|)
      && w.seg.value.pos < |b.o.plan(b.restored).value|
      && (var p := b.o.plan(b.restored).value[w.seg.value.pos];
          && Current(w) == p.step.id && Current(w) !in w.seg.value.completed
          && b.o.guard(p, w.seg.value.results) == if acts[k] == StartStep then Runs else Skips(marker))
  {
    ConformsAt(start, acts, b, k);
  }

  /** Nowhere in the segment does the verifier suspend the run while a step is in progress whose approval
      is on record, unless replans rename it. */
  lemma ApprovedNotSuspendedAgain(start: World, acts: seq<Action>, b: Brief, k: nat)
    requires Conforms(start, acts, b) && k < |acts| && acts[k].Suspend? && acts[k].kind == Escalation(true)
    ensures var w := Run(start, acts[..k]);
      && HasStep(w)
      && (b.mode == Gate.Deterministic || Gate.ReplansKeepId(b.o.tools, Current(w)) ==> Current(w) !in b.approvals)
  {
    ConformsAt(start, acts, b, k);
  }

  /** The steps given a running row, in order. */
  function Started(start: World, acts: seq<Action>): seq<Name> {
    if acts == [] then []
    else
      var k := |acts| - 1;
      var w := Run(start, acts[..k]);
      Started(start, acts[..k]) + (if acts[k].StartStep? && Enabled(w, acts[k]) then [Current(w)] else [])
  }

  /** A step that was given a row, with the steps that had one then, the attempts made at it, when each
      began, and what it came to. */
  datatype Span = Span(
    step: Gate.PlanStep,
    row: nat,
    names: set<Name>,
    attempts: seq<seq<Gate.Event>>,
    times: seq<nat>,
    results: seq<Gate.Result<string>>)

  /** What the step came to. Without any attempt that is an ordinary error. */
  function Outcome(s: Span): Gate.Result<string> {
    if s.results == [] then Gate.Err(Gate.OtherError) else s.results[|s.results| - 1]
  }

  /** The attempts at a step: each came to what its events decide, each but the last failed in a way that
      is worth another, and there are no more than the retries allow. */
  ghost predicate Tried(s: Span, c: Gate.Setting) {
    && |s.attempts| == |s.times| == |s.results| <= (if s.step.maxRetries < 0 then 0 else s.step.maxRetries + 1)
    && (forall i :: 0 <= i < |s.results| ==>
          Gate.ActionDecided(c.(names := s.names), s.step.kind, s.times[i], s.attempts[i], s.results[i]))
    && (forall i :: 0 <= i < |s.results| - 1 ==>
          s.results[i].Err? && (s.results[i].failure in {Gate.OtherError, Gate.CritiqueFailure} ||
                                s.results[i].failure.ReplanRequired?))
  }

  /** `row` closed with the outcome `r` of its step. */
  predicate Closed(row: Row, was: Row, r: Gate.Result<string>, step: Gate.PlanStep, o: Oracles) {
    match r
    case Ok(value) => row == was.(status := StepCompleted, output := Some(o.output(value)))
    case Err(EscalationRequired(_)) => row == was.(status := StepSuspended, output := None)
    case Err(RunSuspended) => row == was.(status := StepSuspended, output := None)
    case Err(OtherError) =>       // without any attempt the row stays running
      row == if step.maxRetries < 0 then was else was.(status := StepFailed, output := None)
    case Err(_) => row == was.(status := StepFailed, output := None)
  }

  function SpanNames(spans: seq<Span>): seq<Name> {
    seq(|spans|, i requires 0 <= i < |spans| => spans[i].step.id)
  }

  function AllAttempts(spans: seq<Span>): seq<seq<Gate.Event>> {
    if spans == [] then [] else AllAttempts(spans[..|spans| - 1]) + spans[|spans| - 1].attempts
  }

  /** The spans hold the started steps and all attempts, in order, each as it was tried. */
  ghost predicate Accounts(spans: seq<Span>, started: seq<Name>, attempts: seq<seq<Gate.Event>>, c: Gate.Setting) {
    && SpanNames(spans) == started && AllAttempts(spans) == attempts
    && forall i :: 0 <= i < |spans| ==> Tried(spans[i], c)
  }

  lemma AccountsGrow(spans: seq<Span>, started: seq<Name>, attempts: seq<seq<Gate.Event>>, s: Span, c: Gate.Setting)
    requires Accounts(spans, started, attempts, c) && Tried(s, c)
    ensures Accounts(spans + [s], started + [s.step.id], attempts + s.attempts, c)
  {
    assert (spans + [s])[..|spans|] == spans;
    assert SpanNames(spans + [s]) == SpanNames(spans) + [s.step.id];
  }

  /** The row of a span, from its start to its close. */
  ghost predicate SpanClosed(rows: seq<Row>, s: Span, o: Oracles) {
    && s.row < |rows|
    && Closed(rows[s.row], Row(s.step.id, rows[s.row].attempt, StepRunning, None), Outcome(s), s.step, o)
  }

  /** The rows there were are as they were; each new one is a skipped one or belongs to a span, and is
      closed as that span came out. */
  ghost predicate Tally(before: seq<Row>, rows: seq<Row>, spans: seq<Span>, o: Oracles) {
    && before <= rows
    && (forall k :: 0 <= k < |spans| ==> |before| <= spans[k].row && SpanClosed(rows, spans[k], o))
    && (forall j, k :: 0 <= j < k < |spans| ==> spans[j].row < spans[k].row)
    && (forall i :: |before| <= i < |rows| ==>
          (rows[i].status == StepSkipped && rows[i].output == None) ||
          exists k :: 0 <= k < |spans| && spans[k].row == i)
  }

  lemma TallySkip(before: seq<Row>, rows: seq<Row>, spans: seq<Span>, o: Oracles, row: Row)
    requires Tally(before, rows, spans, o) && row.status == StepSkipped && row.output == None
    ensures Tally(before, rows + [row], spans, o)
  {
    var more := rows + [row];
    forall k | 0 <= k < |spans| ensures SpanClosed(more, spans[k], o) { assert SpanClosed(rows, spans[k], o); }
    forall i | |before| <= i < |rows|
      ensures (more[i].status == StepSkipped && more[i].output == None) ||
              exists k :: 0 <= k < |spans| && spans[k].row == i
    {
      assert more[i] == rows[i];
    }
  }

  lemma TallySpan(before: seq<Row>, rows: seq<Row>, spans: seq<Span>, o: Oracles, row: Row, s: Span)
    requires Tally(before, rows, spans, o) && s.row == |rows| && SpanClosed(rows + [row], s, o)
    ensures Tally(before, rows + [row], spans + [s], o)
  {
    var (more, longer) := (rows + [row], spans + [s]);
    forall k | 0 <= k < |longer| ensures |before| <= longer[k].row && SpanClosed(more, longer[k], o) {
      if k < |spans| { assert SpanClosed(rows, spans[k], o) && longer[k] == spans[k]; }
    }
    forall j, k | 0 <= j < k < |longer| ensures longer[j].row < longer[k].row {
      assert SpanClosed(rows, spans[j], o);
    }
    forall i | |before| <= i < |more|
      ensures (more[i].status == StepSkipped && more[i].output == None) ||
              exists k :: 0 <= k < |longer| && longer[k].row == i
    {
      if i < |rows| {
        assert more[i] == rows[i];
        if k :| 0 <= k < |spans| && spans[k].row == i { assert longer[k].row == i; }
      } else {
        assert longer[|spans|].row == i;
      }
    }
  }

  /** A completed row of a tool step holds what its tool returned in an attempt that cleared the tool, ran
      it, stayed within the budget and was passed by the critic. */
  lemma CompletedWasPassed(rows: seq<Row>, s: Span, o: Oracles, c: Gate.Setting)
    requires Tried(s, c) && SpanClosed(rows, s, o) && s.step.kind == Gate.ToolStep
    requires rows[s.row].status == StepCompleted
    ensures s.attempts != [] && |s.times| == |s.attempts|
    ensures var (log, at) := (s.attempts[|s.attempts| - 1], s.times[|s.times| - 1]);
      var n := |log|;
      && n >= 7 && log[n - 1] == Gate.Critiqued(Gate.Pass) && log[n - 2] == Gate.BudgetChecked(true)
      && log[n - 3].Executed?
      && Gate.Cleared(log[..n - 3], log[n - 3].tool, c.declared, c.mode, c.approvals)
      && c.env.execute(at + n - 3).Returns?
      && rows[s.row].output == Some(o.output(c.env.execute(at + n - 3).value))
  {
    var i := |s.results| - 1;
    assert Outcome(s).Ok?;
    assert Gate.ActionDecided(c.(names := s.names), s.step.kind, s.times[i], s.attempts[i], s.results[i]);
    Gate.CriticDecides(c.(names := s.names), s.times[i], s.attempts[i], s.results[i]);
  }

  // ------------------------------------------------------------------ one turn of the loop

  /** What a turn of the main loop can change. */
  datatype Snapshot = Snapshot(
    rows: seq<Row>,
    completed: seq<Name>,
    results: map<Name, Output>,
    spans: seq<Span>,
    attempts: seq<seq<Gate.Event>>,
    status: RunStatus,
    error: Option<Suspension>)

  /** The run waits, with the step's callback and from now on. */
  predicate Waits(t: Snapshot, kind: SuspensionKind, callback: string, now: real) {
    && t.status == Suspended && t.error.Some? && t.error.value.kind == kind
    && t.error.value.callback == callback && t.error.value.suspendedAt == now
  }

  /** What the outcome `r` of the step `p` leads to, apart from its row. */
  ghost predicate Leads(o: Oracles, p: Planned, pos: nat, r: Gate.Result<string>, row: nat, s: Snapshot, t: Snapshot,
                        goOn: bool)
  {
    match r
    case Ok(value) =>
      && goOn && t.results == s.results[p.step.id := o.output(value)] && t.completed == s.completed + [p.step.id]
      && t.status == s.status && t.error == s.error
    case Err(PolicyViolation) => !goOn && t.status == Failed && t.error == None
    case Err(Structural) => !goOn && t.status == Failed && t.error == None
    case Err(CritiqueFailure) => !goOn && t.status == Failed && t.error == None
    case Err(ReplanRequired(_)) => !goOn && t.status == Failed && t.error == None
    case Err(EscalationRequired(pre)) => !goOn && Waits(t, Escalation(pre), o.callback(pos), o.time(row))
    case Err(RunSuspended) => !goOn && Waits(t, AtGate, o.callback(pos), o.time(row))
    case Err(OtherError) =>
      match p.handling
      case ContinueRun =>
        && goOn && t.results == s.results[p.step.id := o.errorOutput(pos)] && t.completed == s.completed + [p.step.id]
        && t.status == s.status && t.error == s.error
      case EscalateStep => !goOn && Waits(t, Escalation(false), o.callback(pos), o.time(row))
      case _ => !goOn && t.status == Failed && t.error == None
  }

  /** A step that runs: it gets a row, which is closed with what its attempts came to. */
  ghost predicate Ran(o: Oracles, p: Planned, pos: nat, s: Snapshot, t: Snapshot, goOn: bool) {
    && |t.spans| == |s.spans| + 1 && t.spans[..|s.spans|] == s.spans
    && var span := t.spans[|s.spans|];
       var row := Row(p.step.id, MaxAttempt(s.rows, p.step.id) + 1, StepRunning, None);
       && span.step == p.step && span.row == |s.rows| && t.attempts == s.attempts + span.attempts
       && |t.rows| == |s.rows| + 1 && t.rows[..|s.rows|] == s.rows
       && Closed(t.rows[|s.rows|], row, Outcome(span), p.step, o)
       && Leads(o, p, pos, Outcome(span), |s.rows|, s, t, goOn)
  }

  /** One turn: a completed step is passed over; over budget or with a malformed guard the run fails, with no
      row and no attempt; a step whose guard is false gets a skipped row and no attempt, and leaves its
      marker; any other step runs. */
  ghost predicate TurnTaken(o: Oracles, p: Planned, pos: nat, s: Snapshot, t: Snapshot, goOn: bool) {
    if p.step.id in s.completed then goOn && t == s
    else if !o.withinBudget(|s.rows|) then !goOn && t == s.(status := Failed, error := None)
    else match o.guard(p, s.results)
      case Malformed => !goOn && t == s.(status := Failed, error := None)
      case Skips(marker) =>
        goOn && t == s.(rows := s.rows + [Row(p.step.id, MaxAttempt(s.rows, p.step.id) + 1, StepSkipped, None)],
                        completed := s.completed + [p.step.id],
                        results := s.results[p.step.id := marker])
      case Runs => Ran(o, p, pos, s, t, goOn)
  }

  lemma TurnKeepsTally(before: seq<Row>, o: Oracles, p: Planned, pos: nat, s: Snapshot, t: Snapshot, goOn: bool)
    requires Tally(before, s.rows, s.spans, o) && TurnTaken(o, p, pos, s, t, goOn)
    ensures Tally(before, t.rows, t.spans, o)
  {
    if p.step.id !in s.completed && o.withinBudget(|s.rows|) {
      match o.guard(p, s.results)
      case Malformed =>
      case Skips(_) =>
        TallySkip(before, s.rows, s.spans, o, t.rows[|s.rows|]);
      case Runs =>
        var span := t.spans[|s.spans|];
        assert t.rows == s.rows + [t.rows[|s.rows|]] && t.spans == s.spans + [span];
        TallySpan(before, s.rows, s.spans, o, t.rows[|s.rows|], span);
    }
  }

  // A segment records each action with the state it was taken in.

  datatype Taken = Taken(from: World, action: Action)

  function Actions(taken: seq<Taken>): seq<Action> {
    seq(|taken|, i requires 0 <= i < |taken| => taken[i].action)
  }

  function StartedNames(taken: seq<Taken>): seq<Name> {
    if taken == [] then []
    else
      var (k, t) := (|taken| - 1, taken[|taken| - 1]);
      StartedNames(taken[..k]) + (if t.action.StartStep? && HasStep(t.from) then [Current(t.from)] else [])
  }

  function First(taken: seq<Taken>, world: World): World {
    if taken == [] then world else taken[0].from
  }

  /** The `k`-th action leads from its state to the next one, and is as `Conforms` has it. */
  ghost predicate Linked(taken: seq<Taken>, k: nat, world: World, b: Brief)
    requires k < |taken|
  {
    var (t, next) := (taken[k], if k + 1 < |taken| then taken[k + 1].from else world);
    && OfSegment(t.action) && Enabled(t.from, t.action) && Obeys(b, t.from, t.action)
    && next == Step(t.from, t.action)
  }

  ghost predicate Chained(taken: seq<Taken>, world: World, b: Brief) {
    forall k :: 0 <= k < |taken| ==> Linked(taken, k, world, b)
  }

  lemma ChainGrows(taken: seq<Taken>, w: World, a: Action, v: World, b: Brief)
    requires Chained(taken, w, b)
    requires OfSegment(a) && Enabled(w, a) && Obeys(b, w, a) && v == Step(w, a)
    ensures Chained(taken + [Taken(w, a)], v, b)
    ensures StartedNames(taken + [Taken(w, a)]) == StartedNames(taken) + (if a.StartStep? then [Current(w)] else [])
    ensures First(taken + [Taken(w, a)], v) == First(taken, w)
  {
    var more := taken + [Taken(w, a)];
    assert more[..|taken|] == taken;
    forall k | 0 <= k < |more| ensures Linked(more, k, v, b) {
      if k < |taken| { assert Linked(taken, k, w, b); }
    }
  }

  /** A chain is a run of the machine. */
  lemma {:induction false} ChainIsRun(taken: seq<Taken>, w: World, b: Brief)
    requires Chained(taken, w, b)
    ensures Run(First(taken, w), Actions(taken)) == w
    ensures Conforms(First(taken, w), Actions(taken), b)
    ensures Started(First(taken, w), Actions(taken)) == StartedNames(taken)
  {
    if taken != [] {
      var k := |taken| - 1;
      var (before, v) := (taken[..k], taken[k].from);
      assert Linked(taken, k, w, b);
      forall j | 0 <= j < k ensures Linked(before, j, v, b) {
        assert Linked(taken, j, w, b);
      }
      ChainIsRun(before, v, b);
      assert Actions(taken)[..k] == Actions(before);
      assert First(before, v) == First(taken, w);
    }
  }

  /** The step the verifier was asked about last; `id` when it was not asked. */
  function Asked(log: seq<Gate.Event>, id: Name): Name {
    if log != [] && log[|log| - 1].Verified? then log[|log| - 1].stepId else id
  }

  lemma AskedIs(c: Gate.Setting, log: seq<Gate.Event>, id: Name)
    requires Gate.EscalatedUnapproved(log, c.approvals, c.names)
    requires Gate.KeepsId(c, id) ==> Gate.EndsEscalated(log, id)
    ensures Asked(log, id) !in c.approvals && Asked(log, id) in c.names
    ensures c.mode == Gate.Deterministic || Gate.ReplansKeepId(c.env, id) ==> Asked(log, id) == id
  {}

  class Segment {
    const run: RunStore.Run
    const oracles: Oracles
    const tools: Gate.ToolExecutor
    var plan: seq<Planned>
    var pos: nat
    var completed: seq<Name>
    var results: map<Name, Output>
    ghost const start: World
    ghost const restored: seq<Name>
    ghost var world: World
    ghost var taken: seq<Taken>
    ghost var started: seq<Name>
    ghost var spans: seq<Span>

    ghost function Goals(): Brief {
      Brief(oracles, tools.mode, tools.approvals, restored)
    }

    /** What the tools run under. Each span has its own steps with a row. */
    ghost function Terms(): Gate.Setting {
      Gate.Setting(oracles.tools, tools.mode, tools.declared, tools.approvals, tools.maxReplan, {})
    }

    ghost function Now(): Snapshot
      reads this, run, tools
    {
      Snapshot(run.rows, completed, results, spans, tools.attempts, run.status, run.error)
    }

    /** The actions taken lead from the start to `world`. */
    ghost predicate Past()
      reads this
    {
      && First(taken, world) == start && started == StartedNames(taken)
      && Chained(taken, world, Goals()) && tools.env == oracles.tools
    }

    /** They lead to the committed state. */
    ghost predicate Traced()
      reads this, run
    {
      Past() && world == run.State(world.seg, start.retriers, start.callers)
    }

    /** The segment is over and has decided the run's status. */
    ghost predicate Ended()
      reads this, run
    {
      Traced() && world.seg == None && run.status in {Completed, Failed, Suspended}
    }

    /** The loop's own variables are the machine's segment, about to look at `plan[pos]`. */
    ghost predicate InSync()
      reads this, run
    {
      && Traced() && In(world, AtStep) && oracles.plan(restored) == Some(plan)
      && world.seg.value.plan == PlanNames(plan) && world.seg.value.pos == pos <= |plan|
      && world.seg.value.completed == (set n | n in completed) && world.seg.value.results == results
      && world.seg.value.approvals == tools.approvals
    }

    constructor (run: RunStore.Run, oracles: Oracles, tools: Gate.ToolExecutor, completed: seq<Name>,
                 results: map<Name, Output>, ghost start: World)
      requires start == run.State(None, start.retriers, start.callers) && tools.env == oracles.tools
      ensures restored == completed
      ensures this.run == run && this.oracles == oracles && this.tools == tools && this.start == start
      ensures this.completed == completed && this.results == results && taken == [] && world == start && Traced()
      ensures started == [] && spans == []
    {
      this.run, this.oracles, this.tools := run, oracles, tools;
      this.completed, this.results, this.plan, this.pos := completed, results, [], 0;
      this.restored := completed;
      this.start, this.world, this.taken, this.started, this.spans := start, start, [], [], [];
    }

    /** Record that the committed state has taken step `a`. */
    ghost method Took(a: Action)
      requires Past() && OfSegment(a) && Enabled(world, a) && !a.StartStep?
      requires Obeys(Goals(), world, a)
      requires Step(world, a) == run.State(Step(world, a).seg, start.retriers, start.callers)
      modifies this`world, this`taken
      ensures world == Step(old(world), a) && Traced()
    {
      ChainGrows(taken, world, a, Step(world, a), Goals());
      taken := taken + [Taken(world, a)];
      world := Step(world, a);
    }

    ghost method TookStart()
      requires Past() && Enabled(world, StartStep) && Obeys(Goals(), world, StartStep)
      requires Step(world, StartStep) == run.State(Step(world, StartStep).seg, start.retriers, start.callers)
      modifies this`world, this`taken, this`started
      ensures world == Step(old(world), StartStep) && Traced()
      ensures started == old(started) + [old(Current(world))]
    {
      ChainGrows(taken, world, StartStep, Step(world, StartStep), Goals());
      taken := taken + [Taken(world, StartStep)];
      started := started + [Current(world)];
      world := Step(world, StartStep);
    }

    method FailRun(ghost a: Action)
      requires Traced() && Step(world, a) == world.(status := Failed, error := None, seg := None)
      requires OfSegment(a) && Enabled(world, a) && Obeys(Goals(), world, a) && !a.StartStep?
      modifies this`world, this`taken, run`status, run`error
      ensures Ended() && run.status == Failed && run.error == None
    {
      run.status := Failed;
      run.error := None;
      Took(a);
    }

    /** The machine's segment is about to plan. */
    ghost predicate Ready()
      reads this, run
    {
      && Traced() && In(world, Planning) && completed == restored
      && world.seg.value.completed == (set n | n in completed) && world.seg.value.results == results
      && world.seg.value.approvals == tools.approvals
    }

    method Enter()
      requires Traced() && world.seg == None && completed == restored
      requires (set n | n in completed) == SettledNames(world.rows) && results == SettledResults(world.rows)
      requires tools.approvals == ApprovedNames(world.rows)
      modifies this`world, this`taken, run`status
      ensures Ready()
    {
      Took(Load);
      run.status := Running;
      Took(MarkRunning);
    }

    /** Plan what is left. False when the run failed before any step. */
    method PlanRest(agentic: bool) returns (planned: bool)
      requires Ready() && agentic == (tools.mode == Gate.Agentic)
      modifies this`world, this`taken, this`plan, this`pos, run`status, run`error
      ensures planned ==> InSync() && pos == 0
      ensures !planned ==> Ended()
    {
      if agentic && !oracles.withinBudget(|completed|) {
        FailRun(Crash);
        return false;
      }
      var made := oracles.plan(completed);
      if made.None? {
        FailRun(Crash);
        return false;
      }
      plan, pos := made.value, 0;
      Took(MakePlan(PlanNames(plan)));
      return true;
    }

    /** The run waits for someone, with callback and deadline; the segment ends. */
    method SuspendRun(ghost a: Action, s: Suspension)
      requires Traced()
      requires OfSegment(a) && Enabled(world, a) && Obeys(Goals(), world, a) && !a.StartStep?
      requires Step(world, a) == world.(status := Suspended, error := Some(s), seg := None)
      modifies this`world, this`taken, run`status, run`error
      ensures Ended() && run.status == Suspended && run.error == Some(s)
    {
      run.status := Suspended;
      run.error := Some(s);
      Took(a);
    }

    /** Rows appended or closed together with the step `a`; everything else is as `a` leaves it. */
    method CommitRows(rows: seq<Row>, ghost a: Action)
      requires Traced() && Step(world, a) == world.(rows := rows, seg := Step(world, a).seg)
      requires OfSegment(a) && Enabled(world, a) && Obeys(Goals(), world, a) && !a.StartStep?
      modifies this`world, this`taken, run`rows
      ensures Traced() && world == Step(old(world), a) && run.rows == rows
    {
      run.rows := rows;
      Took(a);
    }

    method Done(n: Name, result: Output)
      requires Traced() && In(world, AtStep) && oracles.plan(restored) == Some(plan)
      requires world.seg.value.plan == PlanNames(plan) && world.seg.value.pos == pos + 1 <= |plan|
      requires world.seg.value.completed == (set m | m in completed) + {n}
      requires world.seg.value.results == results[n := result]
      requires world.seg.value.approvals == tools.approvals
      modifies this`results, this`completed, this`pos
      ensures InSync() && pos == old(pos) + 1 && results == old(results)[n := result]
      ensures completed == old(completed) + [n]
    {
      results := results[n := result];
      completed := completed + [n];
      pos := pos + 1;
    }

    /** The current step has a running row. */
    ghost predicate InRowOf(i: nat)
      reads this, run
    {
      && Traced() && InRow(world) && world.seg.value.phase == InStep(i) && oracles.plan(restored) == Some(plan)
      && world.seg.value.plan == PlanNames(plan) && world.seg.value.pos == pos < |plan|
      && world.seg.value.completed == (set n | n in completed) && world.seg.value.results == results
      && world.seg.value.approvals == tools.approvals
    }

    /** The current step's row is failed, its handling comes next. */
    ghost predicate FailedRowOf()
      reads this, run
    {
      && Traced() && In(world, Failing) && oracles.plan(restored) == Some(plan)
      && world.seg.value.plan == PlanNames(plan) && world.seg.value.pos == pos < |plan|
      && world.seg.value.completed == (set n | n in completed) && world.seg.value.results == results
      && world.seg.value.approvals == tools.approvals
    }

    /** The current step has failed: its row is closed, or still running when it had no attempt. */
    ghost predicate FailedIn(p: Planned)
      reads this, run
    {
      && (FailedRowOf() || (InRow(world) && InRowOf(world.seg.value.phase.row))) && p == plan[pos]
    }

    method Escalate(p: Planned, now: real)
      requires FailedIn(p) && p.handling == EscalateStep
      modifies this`world, this`taken, run`status, run`error
      ensures Ended() && Waits(Now(), Escalation(false), oracles.callback(pos), now)
    {
      var callback := oracles.callback(pos);
      var s := AttachTimeout(Escalation(false), callback, p.minutes, p.seconds, now);
      SuspendRun(HandleFailure(EscalateRun, callback, now, p.minutes, p.seconds, oracles.errorOutput(pos)), s);
    }

    method GoOn(p: Planned, now: real)
      requires FailedIn(p) && p.handling == ContinueRun
      modifies this`world, this`taken, this`results, this`completed, this`pos
      ensures InSync() && pos == old(pos) + 1
      ensures results == old(results)[p.step.id := oracles.errorOutput(old(pos))]
      ensures completed == old(completed) + [p.step.id]
    {
      Took(HandleFailure(Continue, "", now, p.minutes, p.seconds, oracles.errorOutput(pos)));
      Done(p.step.id, oracles.errorOutput(pos));
    }

    /** What follows a failure, by the step's error handling. */
    method HandleError(p: Planned, now: real) returns (goOn: bool)
      requires FailedIn(p)
      modifies this`world, this`taken, this`results, this`completed, this`pos, run`status, run`error
      ensures goOn <==> p.handling == ContinueRun
      ensures goOn ==> && InSync() && pos == old(pos) + 1 && completed == old(completed) + [p.step.id]
                       && results == old(results)[p.step.id := oracles.errorOutput(old(pos))]
                       && run.status == old(run.status) && run.error == old(run.error)
      ensures p.handling == EscalateStep ==> Ended() && Waits(Now(), Escalation(false), oracles.callback(old(pos)), now)
      ensures !goOn && p.handling != EscalateStep ==> Ended() && run.status == Failed && run.error == None
    {
      goOn := p.handling == ContinueRun;
      match p.handling {
        case EscalateStep =>
          Escalate(p, now);
        case ContinueRun =>
          GoOn(p, now);
        case _ =>
          FailRun(HandleFailure(Handling.FailRun, "", now, p.minutes, p.seconds, oracles.errorOutput(pos)));
      }
    }

    /** Close the running row `i` as the outcome of the step demands. `asked` is the step the verifier
        escalated, when it did. */
    method Conclude(i: nat, p: Planned, r: Gate.Result<string>, now: real, ghost asked: Name) returns (goOn: bool)
      requires InRowOf(i) && p == plan[pos] && now == oracles.time(i)
      requires r == Gate.Err(Gate.EscalationRequired(true)) ==> AskedRightly(asked, p.step.id)
      modifies this`world, this`taken, this`results, this`completed, this`pos, run`status, run`error, run`rows
      ensures goOn ==> InSync() && pos == old(pos) + 1
      ensures !goOn ==> Ended()
      ensures |run.rows| == |old(run.rows)| && i < |run.rows|
      ensures forall j :: 0 <= j < |run.rows| && j != i ==> run.rows[j] == old(run.rows)[j]
      ensures Closed(run.rows[i], old(run.rows)[i], r, p.step, oracles)
      ensures Leads(oracles, p, old(pos), r, i, old(Now()), Now(), goOn)
    {
      if r.Ok? {
        Complete(i, oracles.output(r.value));
        return true;
      }
      goOn := false;
      match r.failure {
        case PolicyViolation => BlockAt(i);
        case Structural => BlockAt(i);
        case EscalationRequired(pre) => SuspendAt(i, Escalation(pre), now, asked);
        case RunSuspended => SuspendAt(i, AtGate, now, asked);
        case OtherError => goOn := FailStepThenHandle(i, p, now);
        // A failed critique or an exhausted replan fails the run whatever the handling.
        case CritiqueFailure => FailStepAndRun(i);
        case ReplanRequired(_) => FailStepAndRun(i);
      }
    }

    method Complete(i: nat, output: Output)
      requires InRowOf(i)
      modifies this`world, this`taken, this`results, this`completed, this`pos, run`rows
      ensures InSync() && pos == old(pos) + 1
      ensures run.rows == SetRow(old(run.rows), i, StepCompleted, Some(output))
      ensures results == old(results)[plan[old(pos)].step.id := output]
      ensures completed == old(completed) + [plan[old(pos)].step.id]
    {
      CommitRows(SetRow(run.rows, i, StepCompleted, Some(output)), Succeed(output));
      Done(plan[pos].step.id, output);
    }

    method FailStepAndRun(i: nat)
      requires InRowOf(i)
      modifies this`world, this`taken, run`status, run`error, run`rows
      ensures Ended() && run.status == Failed && run.error == None
      ensures run.rows == SetRow(old(run.rows), i, StepFailed, None)
    {
      CommitRows(SetRow(run.rows, i, StepFailed, None), FailStep);
      FailRun(Crash);
    }

    /** A step whose attempts are used up; without any attempt its row stays running. */
    method FailStepThenHandle(i: nat, p: Planned, now: real) returns (goOn: bool)
      requires InRowOf(i) && p == plan[pos] && now == oracles.time(i)
      modifies this`world, this`taken, this`results, this`completed, this`pos, run`status, run`error, run`rows
      ensures run.rows == if p.step.maxRetries < 0 then old(run.rows) else SetRow(old(run.rows), i, StepFailed, None)
      ensures goOn ==> InSync() && pos == old(pos) + 1
      ensures !goOn ==> Ended()
      ensures Leads(oracles, p, old(pos), Gate.Err(Gate.OtherError), i, old(Now()), Now(), goOn)
    {
      if p.step.maxRetries >= 0 {
        CommitRows(SetRow(run.rows, i, StepFailed, None), FailStep);
      }
      goOn := HandleError(p, now);
    }

    method BlockAt(i: nat)
      requires InRowOf(i)
      modifies this`world, this`taken, run`status, run`error, run`rows
      ensures Ended() && run.status == Failed && run.error == None
      ensures run.rows == SetRow(old(run.rows), i, StepFailed, None)
    {
      run.rows := SetRow(run.rows, i, StepFailed, None);
      run.status := Failed;
      run.error := None;
      Took(Block);
    }

    /** `asked` has a row and no approval, and is the step `id` unless replans rename steps. */
    ghost predicate AskedRightly(asked: Name, id: Name)
      reads this, run
    {
      && asked !in tools.approvals && asked in Names(run.rows)
      && (tools.mode == Gate.Deterministic || Gate.ReplansKeepId(tools.env, id) ==> asked == id)
    }

    method SuspendAt(i: nat, kind: SuspensionKind, now: real, ghost asked: Name)
      requires InRowOf(i) && (kind == Escalation(true) ==> AskedRightly(asked, plan[pos].step.id))
      modifies this`world, this`taken, run`status, run`error, run`rows
      ensures Ended() && run.rows == SetRow(old(run.rows), i, StepSuspended, None)
      ensures Waits(Now(), kind, oracles.callback(pos), now)
    {
      var (p, callback) := (plan[pos], oracles.callback(pos));
      var s := AttachTimeout(kind, callback, p.minutes, p.seconds, now);
      run.rows := SetRow(run.rows, i, StepSuspended, None);
      run.status := Suspended;
      run.error := Some(s);
      Took(Lifecycle.Suspend(kind, callback, now, p.minutes, p.seconds, asked));
    }

    /** Whether the loop stands before a step that is not completed. */
    ghost predicate AtNewStep()
      reads this, run
    {
      InSync() && pos < |plan| && plan[pos].step.id !in completed
    }

    method PassOver()
      requires InSync() && pos < |plan| && plan[pos].step.id in completed
      modifies this`world, this`taken, this`pos
      ensures InSync() && pos == old(pos) + 1 && Now() == old(Now())
    {
      Took(SkipCompleted);
      pos := pos + 1;
    }

    /** The step's guard is false: a skipped row, and its marker for later steps. */
    method Skip(marker: Output)
      requires AtNewStep() && oracles.withinBudget(|run.rows|) && oracles.guard(plan[pos], results) == Skips(marker)
      modifies this`world, this`taken, this`results, this`completed, this`pos, run`rows
      ensures InSync() && pos == old(pos) + 1
      ensures var n := plan[old(pos)].step.id;
              Now() == old(Now()).(rows := old(run.rows) +
                                             [Row(n, MaxAttempt(old(run.rows), n) + 1, StepSkipped, None)],
                                   completed := old(completed) + [n], results := old(results)[n := marker])
    {
      var n := plan[pos].step.id;
      CommitRows(Append(run.rows, n, StepSkipped), SkipGuarded(marker));
      Done(n, marker);
    }

    /** The budget is used up or the guard is malformed: the run fails before the step has a row. */
    method Refuse()
      requires AtNewStep() && (!oracles.withinBudget(|run.rows|) || oracles.guard(plan[pos], results) == Malformed)
      modifies this`world, this`taken, run`status, run`error
      ensures Ended() && Now() == old(Now()).(status := Failed, error := None)
    {
      FailRun(Crash);
    }

    method StartRow() returns (i: nat)
      requires AtNewStep() && oracles.withinBudget(|run.rows|) && oracles.guard(plan[pos], results) == Runs
      modifies this`world, this`taken, this`started, run`rows
      ensures InRowOf(i) && started == old(started) + [plan[pos].step.id]
      ensures i == |old(run.rows)| && run.rows == Append(old(run.rows), plan[pos].step.id, StepRunning)
    {
      i := |run.rows|;
      run.rows := Append(run.rows, plan[pos].step.id, StepRunning);
      TookStart();
    }

    /** One turn of the main loop. */
    method ExecuteNext() returns (goOn: bool)
      requires InSync() && pos < |plan| && Accounts(spans, started, tools.attempts, Terms())
      modifies this, run`status, run`error, run`rows, tools
      ensures goOn ==> InSync() && pos == old(pos) + 1 && plan == old(plan)
      ensures !goOn ==> Ended()
      ensures TurnTaken(oracles, old(plan[pos]), old(pos), old(Now()), Now(), goOn)
      ensures Cleared(old(tools.attempts)) && Accounts(spans, started, tools.attempts, Terms())
    {
      if plan[pos].step.id in completed {
        PassOver();
        return true;
      }
      goOn := TakeStep();
    }

    /** A step that is not completed: the budget, its guard, and what they call for. */
    method TakeStep() returns (goOn: bool)
      requires AtNewStep() && Accounts(spans, started, tools.attempts, Terms())
      modifies this`world, this`taken, this`started, this`results, this`completed, this`pos, this`spans
      modifies run`status, run`error, run`rows, tools
      ensures goOn ==> InSync() && pos == old(pos) + 1
      ensures !goOn ==> Ended()
      ensures TurnTaken(oracles, plan[old(pos)], old(pos), old(Now()), Now(), goOn)
      ensures Cleared(old(tools.attempts)) && Accounts(spans, started, tools.attempts, Terms())
    {
      if !oracles.withinBudget(|run.rows|) {
        Refuse();
        return false;
      }
      match oracles.guard(plan[pos], results) {
        case Malformed =>
          Refuse();
          return false;
        case Skips(marker) =>
          Skip(marker);
          return true;
        case Runs =>
          goOn := RunNext();
      }
    }

    /** A step that is to run: its row, its attempts, and what they lead to. */
    method RunNext() returns (goOn: bool)
      requires AtNewStep() && oracles.withinBudget(|run.rows|) && oracles.guard(plan[pos], results) == Runs
      requires Accounts(spans, started, tools.attempts, Terms())
      modifies this`world, this`taken, this`started, this`results, this`completed, this`pos, this`spans
      modifies run`status, run`error, run`rows, tools
      ensures goOn ==> InSync() && pos == old(pos) + 1
      ensures !goOn ==> Ended()
      ensures Ran(oracles, plan[old(pos)], old(pos), old(Now()), Now(), goOn)
      ensures Cleared(old(tools.attempts)) && Accounts(spans, started, tools.attempts, Terms())
    {
      ghost var before := started;
      var i := StartRow();
      var r, asked := Attempt(plan[pos].step, i, before);
      goOn := Conclude(i, plan[pos], r, oracles.time(i), asked);
    }

    /** The attempts at a step, and the step its verifier was asked about last. */
    method Try(step: Gate.PlanStep, ghost row: nat)
      returns (r: Gate.Result<string>, ghost asked: Name, ghost span: Span)
      requires tools.env == oracles.tools
      modifies tools
      ensures r == Gate.Err(Gate.EscalationRequired(true)) ==> AskedRightly(asked, step.id)
      ensures Cleared(old(tools.attempts))
      ensures span.step == step && span.row == row && Outcome(span) == r && Tried(span, Terms())
      ensures tools.attempts == old(tools.attempts) + span.attempts
    {
      ghost var times, results;
      r, times, results := tools.ExecutePlanStep(step, Names(run.rows));
      span := Span(step, row, Names(run.rows), tools.attempts[|old(tools.attempts)|..], times, results);
      asked := step.id;
      if r == Gate.Err(Gate.EscalationRequired(true)) {
        asked := Asked(tools.attempts[|tools.attempts| - 1], step.id);
        AskedIs(tools.Current(), tools.attempts[|tools.attempts| - 1], step.id);
      }
    }

    /** The attempts at a step whose row has just been started. */
    method Attempt(step: Gate.PlanStep, ghost row: nat, ghost before: seq<Name>)
      returns (r: Gate.Result<string>, ghost asked: Name)
      requires Accounts(spans, before, tools.attempts, Terms()) && tools.env == oracles.tools
      modifies this`spans, tools
      ensures r == Gate.Err(Gate.EscalationRequired(true)) ==> AskedRightly(asked, step.id)
      ensures Cleared(old(tools.attempts)) && Accounts(spans, before + [step.id], tools.attempts, Terms())
      ensures |spans| == |old(spans)| + 1 && spans[..|old(spans)|] == old(spans)
      ensures var span := spans[|old(spans)|];
              && span.step == step && span.row == row && Outcome(span) == r
              && tools.attempts == old(tools.attempts) + span.attempts
    {
      ghost var past := tools.attempts;
      ghost var span;
      r, asked, span := Try(step, row);
      AccountsGrow(spans, before, past, span, Terms());
      spans := spans + [span];
    }

    /** The attempts made since `before` were all cleared. */
    ghost predicate Cleared(before: seq<seq<Gate.Event>>)
      reads tools
    {
      && before <= tools.attempts
      && forall i :: |before| <= i < |tools.attempts| ==>
           Gate.AttemptOk(tools.attempts[i], tools.declared, tools.mode, tools.approvals, tools.maxReplan)
    }

    method ExecuteSteps()
      requires InSync() && pos == 0 && tools.attempts == [] && spans == [] && started == []
      modifies this, run`status, run`error, run`rows, tools
      ensures Ended() && Cleared([]) && Accounts(spans, started, tools.attempts, Terms())
      ensures Tally(old(run.rows), run.rows, spans, oracles)
    {
      ghost var n, before := |plan|, run.rows;
      while pos < |plan|
        invariant InSync() && |plan| == n && Cleared([]) && Accounts(spans, started, tools.attempts, Terms())
        invariant Tally(before, run.rows, spans, oracles)
        decreases n - pos
      {
        ghost var p, k, was := plan[pos], pos, Now();
        var goOn := ExecuteNext();
        TurnKeepsTally(before, oracles, p, k, was, Now(), goOn);
        if !goOn {
          return;
        }
      }
      run.status := Completed;
      Took(CompleteRun);
    }

    /** The whole segment, from its restored context. */
    method Execute(agentic: bool)
      requires Traced() && world.seg == None && tools.attempts == [] && spans == [] && started == []
      requires completed == restored && agentic == (tools.mode == Gate.Agentic)
      requires (set n | n in completed) == SettledNames(world.rows) && results == SettledResults(world.rows)
      requires tools.approvals == ApprovedNames(world.rows)
      modifies this, run`status, run`error, run`rows, tools
      ensures Ended() && Cleared([]) && Accounts(spans, started, tools.attempts, Terms())
      ensures Tally(old(run.rows), run.rows, spans, oracles)
    {
      Enter();
      var planned := PlanRest(agentic);
      if planned {
        ExecuteSteps();
      }
    }

    /** What the record of a finished segment amounts to. */
    lemma Recorded() returns (acts: seq<Action>)
      requires Ended()
      ensures run.State(None, start.retriers, start.callers) == Run(start, acts)
      ensures Conforms(start, acts, Goals())
      ensures started == Started(start, acts)
    {
      ChainIsRun(taken, world, Goals());
      acts := Actions(taken);
    }
  }

  /** One call of `execute_run`: the run's committed state moves only by a segment's steps of the
      machine, each possible when taken and called for by the oracles; the segment is over when it returns;
      no tool ran without its clearance; the attempts are those of the steps that were given a row, in that
      order; and the rows are the old ones, skipped ones, and those of the steps that ran, each closed as
      its attempts came out. */
  method ExecuteRun(run: RunStore.Run, oracles: Oracles, mode: Gate.Mode, declared: set<string>, maxReplan: int,
                    ghost retriers: nat, ghost callers: seq<Caller>)
    returns (tools: Gate.ToolExecutor, ghost acts: seq<Action>, ghost spans: seq<Span>, ghost restored: seq<Name>)
    requires AttemptsInOrder(run.rows)
    modifies run
    ensures run.State(None, retriers, callers) == Run(old(run.State(None, retriers, callers)), acts)
    ensures run.status in {Completed, Failed, Suspended}
    ensures (set n | n in restored) == SettledNames(old(run.rows))
    ensures Conforms(old(run.State(None, retriers, callers)), acts,
                     Brief(oracles, mode, ApprovedNames(old(run.rows)), restored))
    ensures tools.mode == mode && tools.declared == declared && tools.approvals == ApprovedNames(old(run.rows))
    ensures forall i :: 0 <= i < |tools.attempts| ==>
              Gate.AttemptOk(tools.attempts[i], declared, mode, ApprovedNames(old(run.rows)), maxReplan)
    ensures Accounts(spans, Started(old(run.State(None, retriers, callers)), acts), tools.attempts,
                     Gate.Setting(oracles.tools, mode, declared, ApprovedNames(old(run.rows)), maxReplan, {}))
    ensures Tally(old(run.rows), run.rows, spans, oracles)
  {
    var completed, results, approvals := RunStore.RestoreContext(run.rows, run.rows);
    tools := new Gate.ToolExecutor(oracles.tools, mode, declared, approvals, maxReplan);
    var segment := new Segment(run, oracles, tools, completed, results, run.State(None, retriers, callers));
    segment.Execute(mode == Gate.Agentic);
    acts := segment.Recorded();
    spans, restored := segment.spans, segment.restored;
  }
}
