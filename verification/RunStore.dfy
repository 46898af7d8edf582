/** The code that moves a run: the guarded updates, resume and retry, the timeout sweep, and the
    restoring of a segment's context from the rows. Each method is shown to take the steps of
    `Lifecycle` and no others. What the original does in a read and a later write is two methods
    here, so that anything may happen between them. */
module RunStore {
  import opened Basics
  import opened RunModel
  import opened Lifecycle

  /** A run row with its step rows. */
  class Run {
    var status: RunStatus
    var error: Option<Suspension>
    var rows: seq<Row>
    ghost var gates: map<Name, Output>

    ghost function State(seg: Option<Segment>, retriers: nat, callers: seq<Caller>): World
      reads this
    {
      World(status, error, rows, seg, retriers, callers, gates)
    }

    /** The guarded update; `e` is the error the run has from then on. */
    method MarkQueuedIfSuspended(e: Option<Suspension>) returns (applied: bool)
      modifies this`status, this`error
      ensures applied <==> old(status) == Suspended
      ensures status == (if applied then Queued else old(status)) && error == (if applied then e else old(error))
    {
      applied := status == Suspended;
      if applied {
        status := Queued;
        error := e;
      }
    }

    method MarkFailedIfSuspended() returns (applied: bool)
      modifies this`status, this`error
      ensures applied <==> old(status) == Suspended
      ensures status == (if applied then Failed else old(status)) && error == (if applied then None else old(error))
    {
      applied := status == Suspended;
      if applied {
        status := Failed;
        error := None;
      }
    }

    method FirstSuspended() returns (found: Option<nat>)
      ensures found.Some? ==> found.value < |rows| && rows[found.value].status == StepSuspended
      ensures found.Some? <==> HasSuspended(rows)
    {
      var i := 0;
      while i < |rows|
        invariant 0 <= i <= |rows|
        invariant forall j :: 0 <= j < i ==> rows[j].status != StepSuspended
      {
        if rows[i].status == StepSuspended {
          return Some(i);
        }
        i := i + 1;
      }
      return None;
    }

    method ResolveSuspendedStepOnApproval(i: nat, runError: Option<Suspension>, data: Output)
      requires i < |rows|
      modifies this`rows, this`gates
      ensures runError.Some? && runError.value.kind == Escalation(true) ==>
                && rows == SetRow(old(rows), i, StepFailed, Some(data.(escalationApproved := true)))
                && gates == old(gates)
      ensures !(runError.Some? && runError.value.kind == Escalation(true)) ==>
                && rows == SetRow(old(rows), i, StepCompleted, Some(data))
                && gates == old(gates)[old(rows)[i].name := data]
    {
      if runError.Some? && runError.value.kind == Escalation(true) {
        rows := rows[i := rows[i].(output := Some(data.(escalationApproved := true)))];
        rows := rows[i := rows[i].(status := StepFailed)];
      } else {
        gates := gates[rows[i].name := data];
        rows := rows[i := rows[i].(output := Some(data))];
        rows := rows[i := rows[i].(status := StepCompleted)];
      }
    }

    // A caller that answers a suspension first reads, and claims the run when it gets to it. Whatever
    // happens in between, the claim acts on what was read.

    /** The callback's first read: the run with its error. */
    method ReadError(ghost callers: seq<Caller>) returns (c: Caller)
      ensures c == Caller(error, None, false)
      ensures forall seg, k :: State(seg, k, callers + [c]) == Step(State(seg, k, callers), ReadRun)
    {
      c := Caller(error, None, false);
    }

    /** Its second read: the row that waits by then. */
    method ReadSuspended(c: Caller, ghost i: nat, ghost callers: seq<Caller>) returns (d: Caller)
      requires i < |callers| && callers[i] == c
      ensures d.ready && d.error == c.error
      ensures forall seg, k :: State(seg, k, callers[i := d]) == Step(State(seg, k, callers), ReadRow(i, d.row))
    {
      var found := FirstSuspended();
      d := c.(row := found, ready := true);
    }

    /** The API's single read of the run with its steps: both reads, with nothing in between. */
    method ReadDetail(ghost callers: seq<Caller>) returns (c: Caller)
      ensures c.ready && c.error == error
      ensures forall seg, k ::
                State(seg, k, callers + [c]) == Step(Step(State(seg, k, callers), ReadRun), ReadRow(|callers|, c.row))
    {
      var first := ReadError(callers);
      ghost var between := callers + [first];
      c := ReadSuspended(first, |callers|, between);
      assert between[|callers| := c] == callers + [c];
      forall seg, k
        ensures State(seg, k, callers + [c]) == Step(Step(State(seg, k, callers), ReadRun), ReadRow(|callers|, c.row))
      {
        assert State(seg, k, between) == Step(State(seg, k, callers), ReadRun);
      }
    }

    /** The row that `c` has read is closed with `given` as `c`'s error demands; the other rows stay. */
    static ghost predicate AnsweredRow(before: seq<Row>, after: seq<Row>, c: Caller, given: Output)
      requires c.row.Some? && c.row.value < |before|
    {
      var (i, pre) := (c.row.value, c.error.Some? && c.error.value.kind == Escalation(true));
      && |after| == |before| && (forall j :: 0 <= j < |before| && j != i ==> after[j] == before[j])
      && after[i].name == before[i].name && after[i].attempt == before[i].attempt
      && after[i].status == (if pre then StepFailed else StepCompleted)
      && after[i].output.Some? && after[i].output.value.truthy && after[i].output.value.data == given.data
      && after[i].output.value.escalationApproved == (pre || given.escalationApproved)
    }

    /** Resume: claim the suspended run first, then resolve the row that `c` has read. The callback
        keeps the error it has read, the API clears it. */
    method ResumeRun(c: Caller, resumeData: Output, keepError: bool, ghost i: nat, ghost callers: seq<Caller>)
      returns (resumed: bool)
      requires i < |callers| && callers[i] == c && c.ready && (c.row.Some? ==> c.row.value < |rows|)
      modifies this
      ensures resumed <==> old(status) == Suspended
      ensures !resumed ==> forall seg, k :: State(seg, k, callers) == old(State(seg, k, callers))
      ensures resumed ==> status == Queued && error == if keepError then c.error else None
      // A step suspended before it ran is to run again; any other is completed with what it is answered.
      ensures resumed && c.row.Some? ==> AnsweredRow(old(rows), rows, c, resumeData)
      ensures c.row.None? ==> rows == old(rows)
      ensures forall seg, k ::
                State(seg, k, callers) == Step(old(State(seg, k, callers)), Resume(i, resumeData, keepError))
    {
      resumed := MarkQueuedIfSuspended(if keepError then c.error else None);
      if !resumed {
        return;
      }
      if c.row.Some? {
        ResolveSuspendedStepOnApproval(c.row.value, c.error, resumeData.(truthy := true));
      }
    }

    /** A rejected gate fails the run and the row that `c` has read, keeping the denial when one is
        given. */
    method RejectRun(c: Caller, denial: Option<Output>, ghost i: nat, ghost callers: seq<Caller>)
      returns (rejected: bool)
      requires i < |callers| && callers[i] == c && c.ready && (c.row.Some? ==> c.row.value < |rows|)
      modifies this
      ensures rejected <==> old(status) == Suspended
      ensures !rejected ==> forall seg, k :: State(seg, k, callers) == old(State(seg, k, callers))
      ensures rejected ==> status == Failed && error == None
      ensures if rejected && c.row.Some?
              then rows == old(rows)[c.row.value := old(rows)[c.row.value].(status := StepFailed,
                                       output := if denial.Some? then denial else old(rows)[c.row.value].output)]
              else rows == old(rows)
      ensures forall seg, k :: State(seg, k, callers) == Step(old(State(seg, k, callers)), Reject(i, denial))
    {
      rejected := MarkFailedIfSuspended();
      if !rejected {
        return;
      }
      if c.row.Some? {
        var row := c.row.value;
        if denial.Some? {
          rows := rows[row := rows[row].(output := denial)];
        }
        rows := rows[row := rows[row].(status := StepFailed)];
      }
    }

    /** The sweeper's `_fail_one`: it looks for the row after its claim. */
    method FailOne() returns (ghost row: nat)
      modifies this
      ensures forall seg, k, callers :: State(seg, k, callers) == Step(old(State(seg, k, callers)), TimeOut(row))
      ensures old(status) != Suspended ==>
                forall seg, k, callers :: State(seg, k, callers) == old(State(seg, k, callers))
      ensures old(status) == Suspended ==> status == Failed && error == None
      ensures if old(status) == Suspended && row < |rows| && old(rows)[row].status == StepSuspended
              then rows == old(rows)[row := old(rows)[row].(status := StepFailed)]
              else rows == old(rows)
      ensures old(status) == Suspended && (exists i :: 0 <= i < |rows| && old(rows)[i].status == StepSuspended) ==>
                row < |rows| && old(rows)[row].status == StepSuspended
    {
      row := 0;
      var applied := MarkFailedIfSuspended();
      if !applied {
        return;
      }
      var suspendedStep := FirstSuspended();
      if suspendedStep.Some? {
        row := suspendedStep.value;
        rows := rows[suspendedStep.value := rows[suspendedStep.value].(status := StepFailed)];
      }
    }

    /** A failed row with the highest attempt of its name, if there is one. */
    method FirstFailed() returns (found: Option<nat>)
      ensures found.Some? ==> found.value < |rows| && rows[found.value].status == StepFailed
      ensures found.Some? ==> forall j :: 0 <= j < |rows| && rows[j].name == rows[found.value].name ==>
                rows[j].attempt <= rows[found.value].attempt
      ensures found.None? ==> forall i :: 0 <= i < |rows| && rows[i].status == StepFailed ==>
                exists j :: 0 <= j < |rows| && rows[j].name == rows[i].name && rows[j].attempt > rows[i].attempt
    {
      var i := 0;
      while i < |rows|
        invariant 0 <= i <= |rows|
        invariant forall k :: 0 <= k < i && rows[k].status == StepFailed ==>
                    exists j :: 0 <= j < |rows| && rows[j].name == rows[k].name && rows[j].attempt > rows[k].attempt
      {
        MaxAttemptIs(rows, rows[i].name);
        if rows[i].status == StepFailed && rows[i].attempt == MaxAttempt(rows, rows[i].name) {
          return Some(i);
        }
        i := i + 1;
      }
      return None;
    }

    /** Same-run retry looks at the run first: it is admitted if and only if the run is failed and some
        failed row has the highest attempt of its name. */
    method MayRetry(ghost seg: Option<Segment>, ghost retriers: nat, ghost callers: seq<Caller>) returns (may: bool)
      ensures may <==>
                && status == Failed
                && (exists i :: 0 <= i < |rows| && rows[i].status == StepFailed &&
                      (forall j :: 0 <= j < |rows| && rows[j].name == rows[i].name ==>
                         rows[j].attempt <= rows[i].attempt))
      ensures AttemptsInOrder(rows) && may ==>
                && Enabled(State(seg, retriers, callers), RetryRead)
                && State(seg, retriers + 1, callers) == Step(State(seg, retriers, callers), RetryRead)
    {
      if status != Failed {
        return false;
      }
      var failingStep := FirstFailed();
      may := failingStep.Some?;
      ghost var ordered := AttemptsInOrder(rows);
      if ordered { FailedAtHighestIsLatest(rows); }
    }

    /** ... and then writes without looking again. */
    method RequeueForRetry(ghost seg: Option<Segment>, ghost retriers: nat, ghost callers: seq<Caller>)
      requires retriers > 0
      modifies this`status, this`error
      ensures status == Queued && error == None
      ensures State(seg, retriers - 1, callers) == Step(old(State(seg, retriers, callers)), RetryWrite)
    {
      status := Queued;
      error := None;
    }

    /** Same-run retry, when nothing else happens between its read and its write. */
    method Retry(ghost seg: Option<Segment>, ghost retriers: nat, ghost callers: seq<Caller>) returns (retried: bool)
      modifies this`status, this`error
      ensures retried <==>
                && old(status) == Failed
                && (exists i :: 0 <= i < |rows| && rows[i].status == StepFailed &&
                      (forall j :: 0 <= j < |rows| && rows[j].name == rows[i].name ==>
                         rows[j].attempt <= rows[i].attempt))
      ensures if retried then status == Queued && error == None else status == old(status) && error == old(error)
      ensures AttemptsInOrder(rows) && retried ==>
                State(seg, retriers, callers) == Step(Step(old(State(seg, retriers, callers)), RetryRead), RetryWrite)
    {
      retried := MayRetry(seg, retriers, callers);
      if retried {
        RequeueForRetry(seg, retriers + 1, callers);
      }
    }
  }

  lemma {:induction false} MaxAttemptIs(rows: seq<Row>, n: Name)
    ensures forall j :: 0 <= j < |rows| && rows[j].name == n ==> rows[j].attempt <= MaxAttempt(rows, n)
    ensures MaxAttempt(rows, n) > 0 ==>
              exists j :: 0 <= j < |rows| && rows[j].name == n && rows[j].attempt == MaxAttempt(rows, n)
  {
    if rows != [] {
      var init := rows[..|rows| - 1];
      MaxAttemptIs(init, n);
      forall j | 0 <= j < |rows| && rows[j].name == n ensures rows[j].attempt <= MaxAttempt(rows, n) {
        if j < |init| { assert init[j] == rows[j]; }
      }
      if MaxAttempt(rows, n) == MaxAttempt(init, n) > 0 {
        var j :| 0 <= j < |init| && init[j].name == n && init[j].attempt == MaxAttempt(init, n);
        assert rows[j] == init[j];
      } else if MaxAttempt(rows, n) > 0 {
        assert rows[|rows| - 1].name == n && rows[|rows| - 1].attempt == MaxAttempt(rows, n);
      }
    }
  }

  /** The failed rows with the highest attempt of their names are the failed latest ones. */
  lemma FailedAtHighestIsLatest(rows: seq<Row>)
    requires AttemptsInOrder(rows)
    ensures HasFailedLatest(rows) <==>
              (exists i :: 0 <= i < |rows| && rows[i].status == StepFailed &&
                 (forall j :: 0 <= j < |rows| && rows[j].name == rows[i].name ==> rows[j].attempt <= rows[i].attempt))
  {
    if HasFailedLatest(rows) {
      var n :| n in Names(rows) && Latest(rows, n).Some? && Latest(rows, n).value.status == StepFailed;
      var i := LastIndex(rows, n).value;
      forall j | 0 <= j < |rows| && rows[j].name == rows[i].name ensures rows[j].attempt <= rows[i].attempt {
        LatestIsHighest(rows, rows[j]);
      }
    }
    if i :| && 0 <= i < |rows| && rows[i].status == StepFailed
            && (forall j :: 0 <= j < |rows| && rows[j].name == rows[i].name ==> rows[j].attempt <= rows[i].attempt) {
      LatestIsHighest(rows, rows[i]);
      LatestInNames(rows, rows[i].name);
    }
  }

  /** `find_expired_suspensions` would select this run at `now`. */
  predicate Expired(r: Run, now: real)
    reads r
  {
    r.status == Suspended && r.error.Some? && r.error.value.timeoutAt <= now
  }

  /** The sweeper's selection: expired runs, all of them unless the limit cuts it short. */
  method FindExpired(runs: seq<Run>, now: real, batchLimit: nat) returns (selected: seq<nat>)
    ensures |selected| <= batchLimit
    ensures forall k :: 0 <= k < |selected| ==>
              && selected[k] < |runs| && runs[selected[k]].status == Suspended
              && runs[selected[k]].error.Some? && runs[selected[k]].error.value.timeoutAt <= now
    ensures forall j, k :: 0 <= j < k < |selected| ==> selected[j] < selected[k]
    ensures |selected| < batchLimit ==>
              forall i :: 0 <= i < |runs| && runs[i].status == Suspended && runs[i].error.Some? ==>
                runs[i].error.value.timeoutAt > now || i in selected
  {
    selected := [];
    var i := 0;
    while i < |runs| && |selected| < batchLimit
      invariant 0 <= i <= |runs| && |selected| <= batchLimit
      invariant forall k :: 0 <= k < |selected| ==> selected[k] < i && Expired(runs[selected[k]], now)
      invariant forall j, k :: 0 <= j < k < |selected| ==> selected[j] < selected[k]
      invariant forall j :: 0 <= j < i && Expired(runs[j], now) ==> j in selected
    {
      if Expired(runs[i], now) {
        selected := selected + [i];
      }
      i := i + 1;
    }
  }

  /** The run has taken one `TimeOut` step from `before`. */
  ghost predicate TimedOut(r: Run, before: World)
    reads r
  {
    exists row :: r.State(None, 0, []) == Step(before, TimeOut(row))
  }

  /** The sweeper's updates, to runs that may be in any state by now: each takes one `TimeOut` step,
      which does nothing to a run that waits no longer, and each is counted all the same. */
  method FailSelected(runs: seq<Run>, selected: seq<nat>) returns (timedOut: nat)
    requires forall i, j :: 0 <= i < j < |runs| ==> runs[i] != runs[j]
    requires forall k :: 0 <= k < |selected| ==> selected[k] < |runs|
    requires forall j, k :: 0 <= j < k < |selected| ==> selected[j] < selected[k]
    modifies runs
    ensures timedOut == |selected|
    ensures forall i :: 0 <= i < |runs| && i in selected ==> TimedOut(runs[i], old(runs[i].State(None, 0, [])))
    ensures forall i :: 0 <= i < |runs| && i in selected ==>
              runs[i].status == if old(runs[i].status) == Suspended then Failed else old(runs[i].status)
    ensures forall i :: 0 <= i < |runs| && i !in selected ==>
              runs[i].State(None, 0, []) == old(runs[i].State(None, 0, []))
  {
    timedOut := 0;
    while timedOut < |selected|
      invariant timedOut <= |selected|
      invariant forall i :: 0 <= i < |runs| && i in selected[..timedOut] ==>
                  && TimedOut(runs[i], old(runs[i].State(None, 0, [])))
                  && runs[i].status == if old(runs[i].status) == Suspended then Failed else old(runs[i].status)
      invariant forall i :: 0 <= i < |runs| && i !in selected[..timedOut] ==>
                  runs[i].State(None, 0, []) == old(runs[i].State(None, 0, []))
    {
      var run := runs[selected[timedOut]];
      assert selected[timedOut] !in selected[..timedOut];
      ghost var row := run.FailOne();
      assert run.State(None, 0, []) == Step(old(run.State(None, 0, [])), TimeOut(row));
      timedOut := timedOut + 1;
    }
    assert selected[..|selected|] == selected;
  }

  /** One sweep, when nothing else happens between its selection and its updates: at most
      `batchLimit` expired runs time out, all of them if the limit is not reached, and no other run
      is touched. */
  method SweepOnce(runs: seq<Run>, now: real, batchLimit: nat) returns (timedOut: nat, ghost selected: seq<nat>)
    requires forall i, j :: 0 <= i < j < |runs| ==> runs[i] != runs[j]
    modifies runs
    ensures timedOut == |selected| <= batchLimit
    ensures forall j, k :: 0 <= j < k < |selected| ==> selected[j] < selected[k] < |runs|
    ensures forall i :: 0 <= i < |runs| && i in selected ==>
              && old(runs[i].status == Suspended && runs[i].error.Some? && runs[i].error.value.timeoutAt <= now)
              && runs[i].status == Failed && TimedOut(runs[i], old(runs[i].State(None, 0, [])))
    ensures forall i :: 0 <= i < |runs| && i !in selected ==>
              runs[i].State(None, 0, []) == old(runs[i].State(None, 0, []))
    ensures timedOut < batchLimit ==>
              forall i :: 0 <= i < |runs| && runs[i].status == Suspended && runs[i].error.Some? ==>
                runs[i].error.value.timeoutAt > now
  {
    var found := FindExpired(runs, now, batchLimit);
    selected := found;
    timedOut := FailSelected(runs, found);
  }

  // ------------------------------------------------------------------ restoring a segment's context

  lemma {:induction false} CountGrows(rows: seq<Row>, n: Name, i: nat)
    requires i <= |rows|
    ensures Count(rows[..i], n) <= Count(rows, n)
  {
    if i == |rows| {
      assert rows[..i] == rows;
    } else {
      CountGrows(rows[..|rows| - 1], n, i);
      assert rows[..|rows| - 1][..i] == rows[..i];
    }
  }

  lemma LaterIsHigher(rows: seq<Row>, j: nat, i: nat)
    requires AttemptsInOrder(rows) && j < i < |rows| && rows[j].name == rows[i].name
    ensures rows[j].attempt < rows[i].attempt
  {
    CountGrows(rows[..i], rows[j].name, j + 1);
    assert rows[..i][..j + 1] == rows[..j + 1];
    assert rows[..j + 1][..j] == rows[..j];
  }

  /** The last row of a name has the highest attempt, and no other row shares it. */
  lemma LatestIsHighest(rows: seq<Row>, r: Row)
    requires AttemptsInOrder(rows) && r in rows
    ensures Latest(rows, r.name).Some?
    ensures var last := Latest(rows, r.name).value;
      last in rows && last.name == r.name && (r == last || r.attempt < last.attempt)
  {
    var j :| 0 <= j < |rows| && rows[j] == r;
    var i := LastIndex(rows, r.name).value;
    if j < i { LaterIsHigher(rows, j, i); }
  }

  /** Keep the row with the highest attempt of each name. */
  method LatestByName(steps: seq<Row>) returns (latest: map<Name, Row>)
    ensures forall n :: n in latest <==> exists j :: 0 <= j < |steps| && steps[j].name == n
    ensures forall n :: n in latest ==> latest[n] in steps && latest[n].name == n
    ensures forall j :: 0 <= j < |steps| ==> steps[j].attempt <= latest[steps[j].name].attempt
  {
    latest := map[];
    var i := 0;
    while i < |steps|
      invariant 0 <= i <= |steps|
      invariant forall n :: n in latest <==> exists j :: 0 <= j < i && steps[j].name == n
      invariant forall n :: n in latest ==> latest[n] in steps && latest[n].name == n
      invariant forall j :: 0 <= j < i ==> steps[j].attempt <= latest[steps[j].name].attempt
    {
      var step := steps[i];
      if step.name !in latest || step.attempt > latest[step.name].attempt {
        latest := latest[step.name := step];
      }
      i := i + 1;
    }
  }

  /** No row of the same name has a higher attempt than row `i`. */
  predicate Highest(steps: seq<Row>, i: nat)
    requires i < |steps|
  {
    forall j :: 0 <= j < |steps| && steps[j].name == steps[i].name ==> steps[j].attempt <= steps[i].attempt
  }

  /** Two rows of a name never share an attempt, so the highest is the one in `latest`. */
  lemma HighestIs(steps: seq<Row>, rows: seq<Row>, latest: map<Name, Row>)
    requires multiset(steps) == multiset(rows) && AttemptsInOrder(rows)
    requires forall n :: n in latest <==> exists j :: 0 <= j < |steps| && steps[j].name == n
    requires forall n :: n in latest ==> latest[n] in steps && latest[n].name == n
    requires forall j :: 0 <= j < |steps| ==> steps[j].attempt <= latest[steps[j].name].attempt
    ensures forall i :: 0 <= i < |steps| ==> (Highest(steps, i) <==> latest[steps[i].name] == steps[i])
    ensures forall n :: n in latest ==> exists i :: 0 <= i < |steps| && steps[i] == latest[n] && Highest(steps, i)
  {
    SameRows(steps, rows);
    LatestByNameIs(steps, rows, latest);
    forall i | 0 <= i < |steps| ensures Highest(steps, i) <==> latest[steps[i].name] == steps[i] {
      var top := latest[steps[i].name];
      LatestIsHighest(rows, steps[i]);
      var k :| 0 <= k < |steps| && steps[k] == top;
    }
    forall n | n in latest ensures exists i :: 0 <= i < |steps| && steps[i] == latest[n] && Highest(steps, i) {
      var i :| 0 <= i < |steps| && steps[i] == latest[n];
      assert Highest(steps, i);
    }
  }

  /** `execute_run`'s restore: the latest attempt of each name decides. The rows may come in any
      order (the read side sorts them by number and attempt). */
  method RestoreContext(steps: seq<Row>, ghost rows: seq<Row>)
    returns (completed: seq<Name>, results: map<Name, Output>, approvals: set<Name>)
    requires multiset(steps) == multiset(rows) && AttemptsInOrder(rows)
    // The row with the highest attempt of a name decides what becomes of it.
    ensures forall n :: n in completed <==>
              exists i :: 0 <= i < |steps| && steps[i].name == n && Highest(steps, i)
                && steps[i].status == StepCompleted && steps[i].output.Some? && steps[i].output.value.truthy
    ensures forall n :: n in approvals <==>
              exists i :: 0 <= i < |steps| && steps[i].name == n && Highest(steps, i)
                && steps[i].status == StepFailed && steps[i].output.Some? && steps[i].output.value.escalationApproved
    ensures forall n :: n in results <==> n in completed
    ensures forall i :: 0 <= i < |steps| && steps[i].name in results && Highest(steps, i) ==>
              steps[i].output == Some(results[steps[i].name])
    ensures (set n | n in completed) == SettledNames(rows)
    ensures results == SettledResults(rows)
    ensures approvals == ApprovedNames(rows)
  {
    var latest := LatestByName(steps);
    completed, results, approvals := [], map[], {};
    var todo := latest.Keys;
    while todo != {}
      invariant todo <= latest.Keys
      invariant forall n :: n in completed <==> n in latest.Keys - todo && CompletedRow(latest[n])
      invariant forall n :: n in results <==> n in latest.Keys - todo && CompletedRow(latest[n])
      invariant forall n :: n in results ==> results[n] == latest[n].output.value
      invariant forall n :: n in approvals <==> n in latest.Keys - todo && ApprovedRow(latest[n])
      decreases todo
    {
      var n :| n in todo;
      var step := latest[n];
      if step.status == StepCompleted && step.output.Some? && step.output.value.truthy {
        results := results[n := step.output.value];
        completed := completed + [n];
      } else if step.status == StepFailed && step.output.Some? && step.output.value.escalationApproved {
        approvals := approvals + {n};
      }
      todo := todo - {n};
    }
    RestoredIs(steps, rows, latest, completed, results, approvals);
    HighestIs(steps, rows, latest);
  }

  lemma RestoredIs(steps: seq<Row>, rows: seq<Row>, latest: map<Name, Row>,
                   completed: seq<Name>, results: map<Name, Output>, approvals: set<Name>)
    requires multiset(steps) == multiset(rows) && AttemptsInOrder(rows)
    requires forall n :: n in latest <==> exists j :: 0 <= j < |steps| && steps[j].name == n
    requires forall n :: n in latest ==> latest[n] in steps && latest[n].name == n
    requires forall j :: 0 <= j < |steps| ==> steps[j].attempt <= latest[steps[j].name].attempt
    requires forall n :: n in completed <==> n in latest && CompletedRow(latest[n])
    requires forall n :: n in results <==> n in latest && CompletedRow(latest[n])
    requires forall n :: n in results ==> latest[n].output == Some(results[n])
    requires forall n :: n in approvals <==> n in latest && ApprovedRow(latest[n])
    ensures (set n | n in completed) == SettledNames(rows)
    ensures results == SettledResults(rows)
    ensures approvals == ApprovedNames(rows)
  {
    SameRows(steps, rows);
    LatestByNameIs(steps, rows, latest);
    CompletedAre(rows, latest, completed, results);
    ApprovalsAre(rows, latest, approvals);
  }

  lemma CompletedAre(rows: seq<Row>, latest: map<Name, Row>, completed: seq<Name>, results: map<Name, Output>)
    requires latest.Keys == Names(rows) && forall n :: n in latest ==> Latest(rows, n) == Some(latest[n])
    requires forall n :: n in completed <==> n in latest && CompletedRow(latest[n])
    requires forall n :: n in results <==> n in latest && CompletedRow(latest[n])
    requires forall n :: n in results ==> latest[n].output == Some(results[n])
    ensures (set n | n in completed) == SettledNames(rows)
    ensures results == SettledResults(rows)
  {
    assert results.Keys == SettledNames(rows);
  }

  lemma ApprovalsAre(rows: seq<Row>, latest: map<Name, Row>, approvals: set<Name>)
    requires latest.Keys == Names(rows) && forall n :: n in latest ==> Latest(rows, n) == Some(latest[n])
    requires forall n :: n in approvals <==> n in latest && ApprovedRow(latest[n])
    ensures approvals == ApprovedNames(rows)
  {}

  lemma SameRows(steps: seq<Row>, rows: seq<Row>)
    requires multiset(steps) == multiset(rows)
    ensures forall r :: r in steps <==> r in rows
  {
    forall r ensures r in steps <==> r in rows {
      assert r in steps <==> r in multiset(steps);
      assert r in rows <==> r in multiset(rows);
    }
  }

  lemma LatestByNameIs(steps: seq<Row>, rows: seq<Row>, latestByName: map<Name, Row>)
    requires AttemptsInOrder(rows) && forall r :: r in steps <==> r in rows
    requires forall n :: n in latestByName <==> exists j :: 0 <= j < |steps| && steps[j].name == n
    requires forall n :: n in latestByName ==> latestByName[n] in rows && latestByName[n].name == n
    requires forall j :: 0 <= j < |steps| ==> steps[j].attempt <= latestByName[steps[j].name].attempt
    ensures latestByName.Keys == Names(rows)
    ensures forall n :: n in latestByName ==> Latest(rows, n) == Some(latestByName[n])
  {
    forall n | n in latestByName ensures Latest(rows, n) == Some(latestByName[n]) {
      LatestIsHighest(rows, latestByName[n]);
      var last := Latest(rows, n).value;
      var j :| 0 <= j < |steps| && steps[j] == last;
    }
    forall n ensures n in latestByName <==> n in Names(rows) {
      if n in Names(rows) {
        var r :| r in rows && r.name == n;
        var j :| 0 <= j < |steps| && steps[j] == r;
      }
    }
  }
}
