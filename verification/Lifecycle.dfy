/** One run's life: its committed status and step rows, the segment that may be executing it,
    and the resumers, rejecters, retriers and timeouts that act on it from outside.

    `Step` performs one committed change; a run's history is any sequence of actions. A segment
    is one call of `execute_run`: it reads the rows (`Load`), commits `running`, plans, and then
    works through the plan. Planner, steps and callers are unconstrained: whatever they choose
    is the action taken. A caller that resumes or rejects first reads the run's error and its waiting
    row, and claims the run later, when other callers may have been served in between. Mutual
    exclusion of segments is the scheduler's result (`Scheduler.EveryInterleaving`), so at most one
    segment is in progress here; `Process` joins the two machines. */
module Lifecycle {
  import opened Basics
  import opened RunModel

  /** A JSON object: its contents, whether it is non-empty, and whether it carries a truthy
      `escalation_approved`. */
  datatype Output = Output(data: string, truthy: bool, escalationApproved: bool)

  datatype StepStatus = StepRunning | StepCompleted | StepFailed | StepSuspended | StepSkipped

  datatype Row = Row(name: Name, attempt: nat, status: StepStatus, output: Option<Output>)

  datatype SuspensionKind = AtGate | Escalation(preExecution: bool)

  /** The payload a suspension leaves in `run.error`. */
  datatype Suspension = Suspension(kind: SuspensionKind, callback: string, suspendedAt: real, timeoutAt: real)

  // ------------------------------------------------------------------ timeouts, in minutes

  datatype Param = Absent | NotNumeric | Number(value: real)

  const DEFAULT_MINUTES := 1440.0
  const MIN_MINUTES := 1.0

  /** The wait a step's parameters ask for, if they give a number. */
  function Requested(minutes: Param, seconds: Param): Option<real> {
    if minutes.Number? then Some(minutes.value)
    else if seconds.Number? then Some(seconds.value / 60.0)
    else None
  }

  /** A requested positive wait, but at least a minute; a day when there is none. */
  function TimeoutMinutes(minutes: Param, seconds: Param): (m: real)
    ensures m >= MIN_MINUTES
  {
    match Requested(minutes, seconds)
    case Some(m) => if m <= 0.0 then DEFAULT_MINUTES else if m < MIN_MINUTES then MIN_MINUTES else m
    case None => DEFAULT_MINUTES
  }

  method AttachTimeout(kind: SuspensionKind, callback: string, minutesParam: Param, secondsParam: Param, now: real)
    returns (s: Suspension)
    ensures s == Suspension(kind, callback, now, now + TimeoutMinutes(minutesParam, secondsParam))
    // A number of minutes comes before a number of seconds, ...
    ensures minutesParam.Number? && minutesParam.value >= 1.0 ==> s.timeoutAt == now + minutesParam.value
    ensures minutesParam.Number? && 0.0 < minutesParam.value < 1.0 ==> s.timeoutAt == now + 1.0
    ensures !minutesParam.Number? && secondsParam.Number? && secondsParam.value >= 60.0 ==>
              (s.timeoutAt - now) * 60.0 == secondsParam.value
    ensures !minutesParam.Number? && secondsParam.Number? && 0.0 < secondsParam.value < 60.0 ==>
              s.timeoutAt == now + 1.0
    // ... and without a positive one of them the wait is a day.
    ensures minutesParam.Number? && minutesParam.value <= 0.0 ==> s.timeoutAt == now + 24.0 * 60.0
    ensures !minutesParam.Number? && !(secondsParam.Number? && secondsParam.value > 0.0) ==>
              s.timeoutAt == now + 24.0 * 60.0
  {
    var minutes := None;
    if minutesParam.Number? {
      minutes := Some(minutesParam.value);
    }
    if minutes == None && secondsParam.Number? {
      minutes := Some(secondsParam.value / 60.0);
    }
    if minutes == None || minutes.value <= 0.0 {
      minutes := Some(DEFAULT_MINUTES);
    } else if minutes.value < MIN_MINUTES {
      minutes := Some(MIN_MINUTES);
    }
    s := Suspension(kind, callback, now, now + minutes.value);
  }

  // ------------------------------------------------------------------ step rows

  function Count(rows: seq<Row>, n: Name): nat {
    if rows == [] then 0
    else Count(rows[..|rows| - 1], n) + (if rows[|rows| - 1].name == n then 1 else 0)
  }

  function MaxAttempt(rows: seq<Row>, n: Name): nat {
    if rows == [] then 0
    else
      var m := MaxAttempt(rows[..|rows| - 1], n);
      var last := rows[|rows| - 1];
      if last.name == n && last.attempt > m then last.attempt else m
  }

  /** Position of the row of `n` appended last. */
  function LastIndex(rows: seq<Row>, n: Name): (i: Option<nat>)
    ensures i.Some? ==> i.value < |rows| && rows[i.value].name == n
    ensures i.Some? ==> forall j :: i.value < j < |rows| ==> rows[j].name != n
    ensures i.None? ==> forall j :: 0 <= j < |rows| ==> rows[j].name != n
  {
    if rows == [] then None
    else if rows[|rows| - 1].name == n then Some(|rows| - 1)
    else LastIndex(rows[..|rows| - 1], n)
  }

  function Latest(rows: seq<Row>, n: Name): Option<Row> {
    match LastIndex(rows, n)
    case Some(i) => Some(rows[i])
    case None => None
  }

  predicate CompletedRow(r: Row) {
    r.status == StepCompleted && r.output.Some? && r.output.value.truthy
  }

  /** The rows that a later segment restores as done. */
  predicate Settled(rows: seq<Row>, n: Name) {
    Latest(rows, n).Some? && CompletedRow(Latest(rows, n).value)
  }

  predicate ApprovedRow(r: Row) {
    r.status == StepFailed && r.output.Some? && r.output.value.escalationApproved
  }

  predicate Approved(rows: seq<Row>, n: Name) {
    Latest(rows, n).Some? && ApprovedRow(Latest(rows, n).value)
  }

  function Names(rows: seq<Row>): set<Name> {
    set r | r in rows :: r.name
  }

  function SettledNames(rows: seq<Row>): set<Name> {
    set n | n in Names(rows) && Settled(rows, n)
  }

  function SettledResults(rows: seq<Row>): map<Name, Output> {
    map n | n in SettledNames(rows) :: Latest(rows, n).value.output.value
  }

  function ApprovedNames(rows: seq<Row>): set<Name> {
    set n | n in Names(rows) && Approved(rows, n)
  }

  /** The attempts of each name are 1, 2, 3, ... in the order the rows were appended. */
  ghost predicate AttemptsInOrder(rows: seq<Row>) {
    forall i :: 0 <= i < |rows| ==> rows[i].attempt == Count(rows[..i], rows[i].name) + 1
  }

  predicate HasSuspended(rows: seq<Row>) {
    exists i :: 0 <= i < |rows| && rows[i].status == StepSuspended
  }

  function Append(rows: seq<Row>, n: Name, status: StepStatus): seq<Row> {
    rows + [Row(n, MaxAttempt(rows, n) + 1, status, None)]
  }

  function SetRow(rows: seq<Row>, i: nat, status: StepStatus, output: Option<Output>): seq<Row>
    requires i < |rows|
  {
    rows[i := rows[i].(status := status, output := output)]
  }

  lemma {:induction false} SetRowKeepsCounts(rows: seq<Row>, i: nat, status: StepStatus, output: Option<Output>,
                                             n: Name)
    requires i < |rows|
    ensures Count(SetRow(rows, i, status, output), n) == Count(rows, n)
    ensures MaxAttempt(SetRow(rows, i, status, output), n) == MaxAttempt(rows, n)
  {
    var s := SetRow(rows, i, status, output);
    var k := |rows| - 1;
    if i == k {
      assert s[..k] == rows[..k];
    } else {
      SetRowKeepsCounts(rows[..k], i, status, output, n);
      assert s[..k] == SetRow(rows[..k], i, status, output);
    }
  }

  lemma {:induction false} MaxAttemptCounts(rows: seq<Row>, n: Name)
    requires AttemptsInOrder(rows)
    ensures MaxAttempt(rows, n) == Count(rows, n)
  {
    if rows != [] {
      var k := |rows| - 1;
      assert forall i :: 0 <= i < k ==> rows[..k][..i] == rows[..i];
      MaxAttemptCounts(rows[..k], n);
      assert rows[..k] == rows[..k];
    }
  }

  lemma AppendKeepsOrder(rows: seq<Row>, n: Name, status: StepStatus)
    requires AttemptsInOrder(rows)
    ensures AttemptsInOrder(Append(rows, n, status))
  {
    MaxAttemptCounts(rows, n);
    var s := Append(rows, n, status);
    forall i | 0 <= i < |s| ensures s[i].attempt == Count(s[..i], s[i].name) + 1 {
      assert s[..i] == rows[..i];
      if i == |rows| { assert rows[..i] == rows; }
    }
  }

  lemma SetRowKeepsOrder(rows: seq<Row>, i: nat, status: StepStatus, output: Option<Output>)
    requires i < |rows| && AttemptsInOrder(rows)
    ensures AttemptsInOrder(SetRow(rows, i, status, output))
  {
    var s := SetRow(rows, i, status, output);
    forall j | 0 <= j < |s| ensures s[j].attempt == Count(s[..j], s[j].name) + 1 {
      if i < j {
        assert s[..j] == SetRow(rows[..j], i, status, output);
        SetRowKeepsCounts(rows[..j], i, status, output, s[j].name);
      } else {
        assert s[..j] == rows[..j];
      }
    }
  }

  lemma LastIndexIs(rows: seq<Row>, n: Name, i: nat)
    requires i < |rows| && rows[i].name == n && forall j :: i < j < |rows| ==> rows[j].name != n
    ensures LastIndex(rows, n) == Some(i)
  {
    var k := LastIndex(rows, n);
    assert k.Some?;
  }

  lemma LatestAfterSet(rows: seq<Row>, i: nat, status: StepStatus, output: Option<Output>, n: Name)
    requires i < |rows|
    ensures LastIndex(SetRow(rows, i, status, output), n) == LastIndex(rows, n)
    ensures Latest(SetRow(rows, i, status, output), n) ==
              if LastIndex(rows, n) == Some(i) then Some(rows[i].(status := status, output := output))
              else Latest(rows, n)
  {
    var s := SetRow(rows, i, status, output);
    assert forall j :: 0 <= j < |rows| ==> s[j].name == rows[j].name;
    match LastIndex(rows, n)
    case Some(k) => LastIndexIs(s, n, k);
    case None =>
  }

  lemma LatestAfterAppend(rows: seq<Row>, m: Name, status: StepStatus, n: Name)
    ensures LastIndex(Append(rows, m, status), n) == if n == m then Some(|rows|) else LastIndex(rows, n)
    ensures Latest(Append(rows, m, status), n) ==
              if n == m then Some(Row(m, MaxAttempt(rows, m) + 1, status, None)) else Latest(rows, n)
  {
    var s := Append(rows, m, status);
    assert s[..|s| - 1] == rows;
  }

  lemma LatestInNames(rows: seq<Row>, n: Name)
    requires Latest(rows, n).Some?
    ensures n in Names(rows)
  {
    assert Latest(rows, n).value in rows;
  }

  // ------------------------------------------------------------------ the machine

  datatype Phase =
    | Loaded             // rows read, `running` not committed yet
    | Planning
    | AtStep             // about to look at plan[pos]
    | InStep(row: nat)   // plan[pos] has a running row
    | Failing            // its row is failed, its error handling comes next

  datatype Segment = Segment(
    phase: Phase,
    completed: set<Name>,
    results: map<Name, Output>,
    approvals: set<Name>,
    plan: seq<Name>,
    pos: nat)

  /** What a resuming or rejecting caller has read: the run's error, and then the row that waits. */
  datatype Caller = Caller(error: Option<Suspension>, row: Option<nat>, ready: bool)

  datatype World = World(
    status: RunStatus,
    error: Option<Suspension>,
    rows: seq<Row>,
    seg: Option<Segment>,
    retriers: nat,               // retriers that have seen `failed` and not written yet
    callers: seq<Caller>,        // everyone who has read the run in order to answer it
    gates: map<Name, Output>)    // what each step completed by a resume was resumed with

  datatype Handling = FailRun | EscalateRun | Continue

  datatype Action =
    // the segment
    | Load
    | MarkRunning
    | MakePlan(plan: seq<Name>)
    | SkipCompleted
    | SkipGuarded(marker: Output)
    | StartStep
    | Succeed(output: Output)
    | FailStep
    | HandleFailure(handling: Handling, callback: string, now: real, minutes: Param, seconds: Param, marker: Output)
    | Block                                 // policy violation or structural error
    // `asked` is the step the verifier was asked about: a replan may put another in the place of the current one
    | Suspend(kind: SuspensionKind, callback: string, now: real, minutes: Param, seconds: Param, asked: Name)
    | Crash                                 // any other way a segment fails the run
    | CompleteRun
    // everyone else
    | ReadRun
    | ReadRow(caller: nat, found: Option<nat>)
    | Resume(caller: nat, data: Output, keepError: bool)    // the webhook callback keeps the error it read
    | Reject(caller: nat, denial: Option<Output>)
    | TimeOut(row: nat)
    | RetryRead
    | RetryWrite

  function SuspensionOf(kind: SuspensionKind, callback: string, now: real, minutes: Param, seconds: Param): Suspension {
    Suspension(kind, callback, now, now + TimeoutMinutes(minutes, seconds))
  }

  predicate In(w: World, p: Phase) {
    w.seg.Some? && w.seg.value.phase == p
  }

  predicate HasStep(w: World) {
    w.seg.Some? && w.seg.value.pos < |w.seg.value.plan|
  }

  function Current(w: World): Name
    requires HasStep(w)
  {
    w.seg.value.plan[w.seg.value.pos]
  }

  predicate InRow(w: World) {
    HasStep(w) && w.seg.value.phase.InStep? && w.seg.value.phase.row < |w.rows|
  }

  /** The row an outside caller resolves, when there is one: some suspended row. */
  predicate Waiting(w: World, row: nat) {
    HasSuspended(w.rows) ==> row < |w.rows| && w.rows[row].status == StepSuspended
  }

  /** What a caller finds when it looks for the waiting row. */
  predicate Found(w: World, row: Option<nat>) {
    if row.Some? then row.value < |w.rows| && w.rows[row.value].status == StepSuspended else !HasSuspended(w.rows)
  }

  /** Caller `c` has read the run and its row. */
  predicate Ready(w: World, c: nat) {
    c < |w.callers| && w.callers[c].ready && (w.callers[c].row.Some? ==> w.callers[c].row.value < |w.rows|)
  }

  predicate PreExecution(e: Option<Suspension>) {
    e.Some? && e.value.kind == Escalation(true)
  }

  predicate HasFailedLatest(rows: seq<Row>) {
    exists n :: n in Names(rows) && Latest(rows, n).Some? && Latest(rows, n).value.status == StepFailed
  }

  predicate Leaves(a: Action) {
    a.Resume? || a.Reject? || a.TimeOut?
  }

  /** An action of the segment, not of anyone else. */
  predicate OfSegment(a: Action) {
    !Leaves(a) && !a.ReadRun? && !a.ReadRow? && !a.RetryRead? && !a.RetryWrite?
  }

  predicate Enabled(w: World, a: Action) {
    match a
    case Load => w.seg.None?
    case MarkRunning => In(w, Loaded)
    case MakePlan(_) => In(w, Planning)
    case SkipCompleted => In(w, AtStep) && HasStep(w) && Current(w) in w.seg.value.completed
    case SkipGuarded(_) => In(w, AtStep) && HasStep(w) && Current(w) !in w.seg.value.completed
    case StartStep => In(w, AtStep) && HasStep(w) && Current(w) !in w.seg.value.completed
    case Succeed(_) => InRow(w)
    case FailStep => InRow(w)
    // A negative retry limit leaves the row running: the loop that would close it never turns.
    case HandleFailure(_, _, _, _, _, _) => (In(w, Failing) && HasStep(w)) || InRow(w)
    case Block => InRow(w)
    // A verifier escalation is honoured without suspending when the approval is on record.
    case Suspend(kind, _, _, _, _, asked) => InRow(w) && !(kind == Escalation(true) && asked in w.seg.value.approvals)
    case Crash => w.seg.Some?
    case CompleteRun => In(w, AtStep) && !HasStep(w)
    case ReadRun => true
    case ReadRow(c, row) => c < |w.callers| && Found(w, row)
    case Resume(c, _, _) => w.status == Suspended && Ready(w, c)
    case Reject(c, _) => w.status == Suspended && Ready(w, c)
    case TimeOut(row) => w.status == Suspended && Waiting(w, row)
    case RetryRead => w.status == Failed && HasFailedLatest(w.rows)
    case RetryWrite => w.retriers > 0
  }

  /** The current step is done with `result`; the segment moves on. */
  function Advance(s: Segment, n: Name, result: Output): Segment {
    s.(phase := AtStep, completed := s.completed + {n}, results := s.results[n := result], pos := s.pos + 1)
  }

  /** The output a resume leaves: an empty payload is replaced by a marker. */
  function Answer(e: Option<Suspension>, given: Output): Output {
    var data := given.(truthy := true);
    if PreExecution(e) then data.(escalationApproved := true) else data
  }

  /** The claim of a caller: the guard looks at the status, the rest is what the caller read. */
  function ResumeWorld(w: World, c: nat, given: Output, keepError: bool): World
    requires Ready(w, c)
  {
    var t := w.callers[c];
    var queued := w.(status := Queued, error := if keepError then t.error else None);
    if t.row.None? then queued
    else if PreExecution(t.error) then
      queued.(rows := SetRow(w.rows, t.row.value, StepFailed, Some(Answer(t.error, given))))
    else
      queued.(rows := SetRow(w.rows, t.row.value, StepCompleted, Some(Answer(t.error, given))),
              gates := w.gates[w.rows[t.row.value].name := Answer(t.error, given)])
  }

  /** The row is closed as failed; without a denial its output stays. */
  function FailRow(w: World, row: nat, output: Option<Output>): World
    requires row < |w.rows|
  {
    w.(rows := SetRow(w.rows, row, StepFailed, if output.Some? then output else w.rows[row].output))
  }

  function RejectWorld(w: World, c: nat, denial: Option<Output>): World
    requires Ready(w, c)
  {
    var failed := w.(status := Failed, error := None);
    if w.callers[c].row.None? then failed else FailRow(failed, w.callers[c].row.value, denial)
  }

  /** The sweeper looks for the waiting row after its claim. */
  function TimeOutWorld(w: World, row: nat): World
    requires Waiting(w, row)
  {
    var failed := w.(status := Failed, error := None);
    if !HasSuspended(w.rows) then failed else FailRow(failed, row, None)
  }

  function Step(w: World, a: Action): World {
    if !Enabled(w, a) then w else Do(w, a)
  }

  function Do(w: World, a: Action): World
    requires Enabled(w, a)
  {
    match a
    case Load =>
      w.(seg := Some(Segment(Loaded, SettledNames(w.rows), SettledResults(w.rows), ApprovedNames(w.rows), [], 0)))
    case MarkRunning =>
      w.(status := Running, seg := Some(w.seg.value.(phase := Planning)))
    case MakePlan(plan) =>
      w.(seg := Some(w.seg.value.(phase := AtStep, plan := plan, pos := 0)))
    case SkipCompleted =>
      w.(seg := Some(w.seg.value.(pos := w.seg.value.pos + 1)))
    case SkipGuarded(marker) =>
      w.(rows := Append(w.rows, Current(w), StepSkipped), seg := Some(Advance(w.seg.value, Current(w), marker)))
    case StartStep =>
      w.(rows := Append(w.rows, Current(w), StepRunning), seg := Some(w.seg.value.(phase := InStep(|w.rows|))))
    case Succeed(output) =>
      w.(rows := SetRow(w.rows, w.seg.value.phase.row, StepCompleted, Some(output)),
         seg := Some(Advance(w.seg.value, Current(w), output)))
    case FailStep =>
      w.(rows := SetRow(w.rows, w.seg.value.phase.row, StepFailed, None),
         seg := Some(w.seg.value.(phase := Failing)))
    case HandleFailure(handling, callback, now, minutes, seconds, marker) =>
      (match handling
       case FailRun => w.(status := Failed, error := None, seg := None)
       case EscalateRun =>
         w.(status := Suspended, seg := None,
            error := Some(SuspensionOf(Escalation(false), callback, now, minutes, seconds)))
       case Continue => w.(seg := Some(Advance(w.seg.value, Current(w), marker))))
    case Block =>
      w.(status := Failed, error := None, seg := None,
         rows := SetRow(w.rows, w.seg.value.phase.row, StepFailed, None))
    case Suspend(kind, callback, now, minutes, seconds, _) =>
      w.(status := Suspended, error := Some(SuspensionOf(kind, callback, now, minutes, seconds)), seg := None,
         rows := SetRow(w.rows, w.seg.value.phase.row, StepSuspended, None))
    case Crash =>
      w.(status := Failed, error := None, seg := None)
    case CompleteRun =>
      w.(status := Completed, seg := None)
    case ReadRun => w.(callers := w.callers + [Caller(w.error, None, false)])
    case ReadRow(c, row) => w.(callers := w.callers[c := w.callers[c].(row := row, ready := true)])
    case Resume(c, data, keepError) => ResumeWorld(w, c, data, keepError)
    case Reject(c, denial) => RejectWorld(w, c, denial)
    case TimeOut(row) => TimeOutWorld(w, row)
    case RetryRead => w.(retriers := w.retriers + 1)
    case RetryWrite => w.(status := Queued, error := None, retriers := w.retriers - 1)
  }

  function Run(w: World, actions: seq<Action>): World {
    if actions == [] then w
    else Step(Run(w, actions[..|actions| - 1]), actions[|actions| - 1])
  }

  const Created := World(Queued, None, [], None, 0, [], map[])

  // ------------------------------------------------------------------ what a step does to the rows

  datatype Change =
    | Same
    | Appended(name: Name, status: StepStatus)
    | Set(row: nat, to: StepStatus, output: Option<Output>)

  predicate Fits(rows: seq<Row>, c: Change) {
    c.Set? ==> c.row < |rows|
  }

  function Apply(rows: seq<Row>, c: Change): seq<Row>
    requires Fits(rows, c)
  {
    match c
    case Same => rows
    case Appended(n, s) => Append(rows, n, s)
    case Set(i, s, o) => SetRow(rows, i, s, o)
  }

  /** A claim writes the row the caller read, when it read one. */
  function ClaimChange(rows: seq<Row>, row: Option<nat>, to: StepStatus, output: Option<Output>): Change
    requires row.Some? ==> row.value < |rows|
  {
    if row.None? then Same
    else Set(row.value, to, if output.Some? then output else rows[row.value].output)
  }

  function ChangeOf(w: World, a: Action): Change {
    if !Enabled(w, a) then Same
    else match a
      case SkipGuarded(_) => Appended(Current(w), StepSkipped)
      case StartStep => Appended(Current(w), StepRunning)
      case Succeed(output) => Set(w.seg.value.phase.row, StepCompleted, Some(output))
      case FailStep => Set(w.seg.value.phase.row, StepFailed, None)
      case Block => Set(w.seg.value.phase.row, StepFailed, None)
      case Suspend(_, _, _, _, _, _) => Set(w.seg.value.phase.row, StepSuspended, None)
      case Resume(c, given, _) =>
        var t := w.callers[c];
        ClaimChange(w.rows, t.row, if PreExecution(t.error) then StepFailed else StepCompleted,
                    Some(Answer(t.error, given)))
      case Reject(c, denial) => ClaimChange(w.rows, w.callers[c].row, StepFailed, denial)
      case TimeOut(row) => if HasSuspended(w.rows) then ClaimChange(w.rows, Some(row), StepFailed, None) else Same
      case _ => Same
  }

  /** A step appends a row, or writes one, or leaves the rows alone. */
  lemma StepChangesRows(w: World, a: Action)
    ensures Fits(w.rows, ChangeOf(w, a)) && Step(w, a).rows == Apply(w.rows, ChangeOf(w, a))
  {}

  lemma {:induction false} ChangeKeepsOrder(rows: seq<Row>, c: Change)
    requires Fits(rows, c) && AttemptsInOrder(rows)
    ensures AttemptsInOrder(Apply(rows, c))
  {
    match c
    case Same =>
    case Appended(n, s) => AppendKeepsOrder(rows, n, s);
    case Set(i, s, o) => SetRowKeepsOrder(rows, i, s, o);
  }

  /** The row of `n` that was appended last, after the change. */
  lemma LatestAfter(rows: seq<Row>, c: Change, n: Name)
    requires Fits(rows, c)
    ensures var t := Apply(rows, c);
      match c
      case Same => t == rows
      case Appended(m, s) =>
        && LastIndex(t, n) == (if n == m then Some(|rows|) else LastIndex(rows, n))
        && Latest(t, n) == (if n == m then Some(Row(m, MaxAttempt(rows, m) + 1, s, None)) else Latest(rows, n))
        && MaxAttempt(t, n) == (if n == m then MaxAttempt(rows, n) + 1 else MaxAttempt(rows, n))
      case Set(i, s, o) =>
        && LastIndex(t, n) == LastIndex(rows, n)
        && Latest(t, n) == (if LastIndex(rows, n) == Some(i) then Some(rows[i].(status := s, output := o))
                            else Latest(rows, n))
        && MaxAttempt(t, n) == MaxAttempt(rows, n)
  {
    match c
    case Same =>
    case Appended(m, s) =>
      LatestAfterAppend(rows, m, s, n);
      assert Apply(rows, c)[..|rows|] == rows;
    case Set(i, s, o) =>
      LatestAfterSet(rows, i, s, o, n);
      SetRowKeepsCounts(rows, i, s, o, n);
  }
}
