/** What every history of a run keeps. */
module LifecycleSafety {
  import opened Basics
  import opened RunModel
  import opened Lifecycle

  // ------------------------------------------------------------------ every history

  /** A suspended run carries the payload of a suspension, due at least a minute after it began. */
  predicate Bounded(w: World) {
    w.status == Suspended ==> w.error.Some? && w.error.value.timeoutAt >= w.error.value.suspendedAt + MIN_MINUTES
  }

  /** Once a segment has committed `running`, only its own end suspends the run. */
  predicate SegmentOwnsStatus(w: World) {
    w.seg.Some? && w.seg.value.phase != Loaded ==> w.status != Suspended
  }

  /** The row of the step in progress: running, and the last of its name. */
  predicate RowInProgress(w: World) {
    w.seg.Some? && w.seg.value.phase.InStep? ==>
      && HasStep(w)
      && Current(w) !in w.seg.value.completed
      && LastIndex(w.rows, Current(w)) == Some(w.seg.value.phase.row)
      && w.rows[w.seg.value.phase.row].status == StepRunning
  }

  /** A row that some caller read is there, and it is not the row of a step in progress. */
  predicate ReadRowsFit(w: World) {
    forall c :: 0 <= c < |w.callers| && w.callers[c].row.Some? ==>
      w.callers[c].row.value < |w.rows| && w.rows[w.callers[c].row.value].status != StepRunning
  }

  predicate StateInv(w: World) {
    Bounded(w) && SegmentOwnsStatus(w) && RowInProgress(w) && ReadRowsFit(w)
  }

  ghost predicate Inv(w: World) {
    AttemptsInOrder(w.rows) && StateInv(w)
  }

  lemma ReadRowsStayFit(w: World, a: Action)
    requires ReadRowsFit(w)
    ensures ReadRowsFit(Step(w, a))
  {
    var v := Step(w, a);
    StepChangesRows(w, a);
    assert ChangeOf(w, a).Set? ==> ChangeOf(w, a).to != StepRunning;
    forall c | 0 <= c < |v.callers| && v.callers[c].row.Some?
      ensures v.callers[c].row.value < |v.rows| && v.rows[v.callers[c].row.value].status != StepRunning
    {
      if c < |w.callers| && w.callers[c].row == v.callers[c].row { assert w.callers[c].row.Some?; }
    }
  }

  lemma StateInvKept(w: World, a: Action)
    requires StateInv(w)
    ensures StateInv(Step(w, a))
  {
    ReadRowsStayFit(w, a);
    if a.StartStep? && Enabled(w, a) {
      LatestAfterAppend(w.rows, Current(w), StepRunning, Current(w));
    }
  }

  lemma InvKept(w: World, a: Action)
    requires Inv(w)
    ensures Inv(Step(w, a))
  {
    StepChangesRows(w, a);
    ChangeKeepsOrder(w.rows, ChangeOf(w, a));
    StateInvKept(w, a);
  }

  lemma {:induction false} InvFrom(w: World, actions: seq<Action>)
    requires Inv(w)
    ensures Inv(Run(w, actions))
  {
    if actions != [] {
      InvFrom(w, actions[..|actions| - 1]);
      InvKept(Run(w, actions[..|actions| - 1]), actions[|actions| - 1]);
    }
  }

  /** In every history: the attempts of each name are 1, 2, 3, ... in append order; a suspended
      run carries its payload and a deadline at least a minute away. */
  lemma EveryHistory(actions: seq<Action>)
    ensures var w := Run(Created, actions);
      && AttemptsInOrder(w.rows)
      && (w.status == Suspended ==> w.error.Some? && w.error.value.timeoutAt >= w.error.value.suspendedAt + MIN_MINUTES)
      && StateInv(w)
  {
    InvFrom(Created, actions);
  }

  // ------------------------------------------------------------------ at most one waiting row

  ghost predicate AtMostOneWaits(rows: seq<Row>) {
    forall i, j :: 0 <= i < j < |rows| ==> !(rows[i].status == StepSuspended && rows[j].status == StepSuspended)
  }

  /** At most one row waits, and only while the run is suspended. */
  ghost predicate OneWaiting(w: World) {
    AtMostOneWaits(w.rows) && (HasSuspended(w.rows) ==> w.status == Suspended)
  }

  /** A status written without looking at the one it replaces. */
  predicate Unseen(a: Action) {
    a.MarkRunning? || a.RetryWrite? || a.Crash?
  }

  /** Such a write, over a run with a waiting row. */
  predicate Overwrites(w: World, a: Action) {
    Unseen(a) && Enabled(w, a) && HasSuspended(w.rows)
  }

  lemma WaitingAfter(rows: seq<Row>, c: Change)
    requires Fits(rows, c) && AtMostOneWaits(rows)
    requires c.Appended? ==> c.status != StepSuspended
    requires c.Set? && c.to == StepSuspended ==> !HasSuspended(rows)
    ensures AtMostOneWaits(Apply(rows, c))
    ensures HasSuspended(Apply(rows, c)) <==>
              if c.Set? then c.to == StepSuspended || (HasSuspended(rows) && rows[c.row].status != StepSuspended)
              else HasSuspended(rows)
  {
    var t := Apply(rows, c);
    assert forall i :: 0 <= i < |rows| && !(c.Set? && i == c.row) ==> t[i] == rows[i];
    if c.Set? {
      assert t[c.row].status == c.to;
    }
    if HasSuspended(rows) && !(c.Set? && rows[c.row].status == StepSuspended) {
      var j :| 0 <= j < |rows| && rows[j].status == StepSuspended;
      assert t[j].status == StepSuspended;
    }
  }

  predicate Claims(w: World, a: Action) {
    (a.Resume? || a.Reject?) && Enabled(w, a)
  }

  /** The row a claim writes. */
  function ReadBy(w: World, a: Action): Option<nat>
    requires Claims(w, a)
  {
    w.callers[a.caller].row
  }

  /** A claim that leaves the waiting row waiting: its caller read another row, or none. */
  predicate Misses(w: World, a: Action) {
    && Claims(w, a) && HasSuspended(w.rows)
    && !(ReadBy(w, a).Some? && w.rows[ReadBy(w, a).value].status == StepSuspended)
  }

  /** What a step that changes a row tells about the run. */
  lemma ChangeSays(w: World, a: Action)
    requires StateInv(w) && OneWaiting(w)
    ensures var c := ChangeOf(w, a);
      && Fits(w.rows, c)
      && (c.Appended? ==> c.status != StepSuspended && !HasSuspended(w.rows))
      && (c.Set? && Leaves(a) && !Misses(w, a) && HasSuspended(w.rows) ==> w.rows[c.row].status == StepSuspended)
      && (c.Set? && Leaves(a) ==> c.to != StepSuspended)
      && (c.Set? && !Leaves(a) ==> !HasSuspended(w.rows))
      && (c.Set? && c.to == StepSuspended ==> Step(w, a).status == Suspended)
  {}

  /** What a step means for a run with a waiting row that it leaves alone. */
  lemma WaitingSays(w: World, a: Action)
    requires StateInv(w) && OneWaiting(w) && HasSuspended(w.rows)
    ensures var c := ChangeOf(w, a);
      && (c.Same? && !Unseen(a) && !Misses(w, a) ==> Step(w, a).status == Suspended)
      && (Overwrites(w, a) ==> c.Same? && Step(w, a).status != Suspended)
      && (Misses(w, a) ==> Step(w, a).status != Suspended
                           && (c.Set? ==> c.row < |w.rows| && w.rows[c.row].status != StepSuspended))
  {}

  /** One step keeps it exactly when the step is neither such a write nor such a claim. */
  lemma OneWaitingKeptIff(w: World, a: Action)
    requires StateInv(w) && OneWaiting(w)
    ensures OneWaiting(Step(w, a)) <==> !Overwrites(w, a) && !Misses(w, a)
  {
    StepChangesRows(w, a);
    ChangeSays(w, a);
    if HasSuspended(w.rows) { WaitingSays(w, a); }
    WaitingAfter(w.rows, ChangeOf(w, a));
  }

  /** Some step of the history takes a run out of suspension and leaves its waiting row waiting. */
  predicate SomeAbandons(actions: seq<Action>) {
    actions != [] &&
    (var k := |actions| - 1;
     var w := Run(Created, actions[..k]);
     SomeAbandons(actions[..k]) || Overwrites(w, actions[k]) || Misses(w, actions[k]))
  }

  /** `OneWaiting` in every state of the history. */
  ghost predicate AlwaysOneWaiting(actions: seq<Action>) {
    OneWaiting(Run(Created, actions)) && (actions != [] ==> AlwaysOneWaiting(actions[..|actions| - 1]))
  }

  /** A history keeps at most one waiting row, and only while suspended, in all its states, exactly
      when none of its steps overwrites the status of a run that has a waiting row, or claims such a
      run with another row in hand. */
  lemma {:induction false} OneWaitingIff(actions: seq<Action>)
    ensures AlwaysOneWaiting(actions) <==> !SomeAbandons(actions)
  {
    if actions != [] {
      var k := |actions| - 1;
      var before := actions[..k];
      OneWaitingIff(before);
      EveryHistory(before);
      if AlwaysOneWaiting(before) {
        assert OneWaiting(Run(Created, before));
        OneWaitingKeptIff(Run(Created, before), actions[k]);
      }
    }
  }

  lemma Then(start: World, actions: seq<Action>, w: World, a: Action, v: World) returns (more: seq<Action>)
    requires Run(start, actions) == w && Step(w, a) == v
    ensures more == actions + [a] && Run(start, more) == v
  {
    more := actions + [a];
    assert more[..|more| - 1] == actions;
  }

  /** `v` is executing `g`, the last of the rows `rows` and one more. */
  predicate Executes(v: World, rows: seq<Row>, g: Name) {
    v.rows == Append(rows, g, StepRunning) && InRow(v) && Current(v) == g && v.seg.value.phase == InStep(|rows|)
  }

  /** A segment that has read its rows and does not know `g` plans and starts the single step `g`. */
  lemma StartLoaded(start: World, actions: seq<Action>, u: World, g: Name) returns (more: seq<Action>, v: World)
    requires Run(start, actions) == u && In(u, Loaded) && g !in u.seg.value.completed
    ensures actions <= more && Run(start, more) == v && Executes(v, u.rows, g)
    ensures forall k :: |actions| <= k < |more| ==> !more[k].Resume? && !more[k].Reject?
  {
    var s := u.seg.value;
    var w := u.(status := Running, seg := Some(s.(phase := Planning)));
    more := Then(start, actions, u, MarkRunning, w);
    v := w.(seg := Some(s.(phase := AtStep, plan := [g], pos := 0)));
    more := Then(start, more, w, MakePlan([g]), v);
    w := v.(rows := Append(v.rows, g, StepRunning), seg := Some(v.seg.value.(phase := InStep(|v.rows|))));
    more := Then(start, more, v, StartStep, w);
    v := w;
  }

  // ------------------------------------------------------------------ every suspension is left once

  function Entered(actions: seq<Action>): nat {
    if actions == [] then 0
    else
      var k := |actions| - 1;
      Entered(actions[..k]) + Enters(Run(Created, actions[..k]), actions[k])
  }

  function Enters(w: World, a: Action): nat {
    if w.status != Suspended && Step(w, a).status == Suspended then 1 else 0
  }

  /** Suspensions ended by a resume, a rejection or a timeout. */
  function Answered(actions: seq<Action>): nat {
    if actions == [] then 0
    else
      var k := |actions| - 1;
      Answered(actions[..k]) + (if Leaves(actions[k]) && Enabled(Run(Created, actions[..k]), actions[k]) then 1 else 0)
  }

  /** Suspensions ended by a write that did not look. */
  function Lost(actions: seq<Action>): nat {
    if actions == [] then 0
    else
      var k := |actions| - 1;
      Lost(actions[..k]) + Loses(Run(Created, actions[..k]), actions[k])
  }

  function Loses(w: World, a: Action): nat {
    if w.status == Suspended && Enabled(w, a) && Unseen(a) then 1 else 0
  }

  lemma OneStepConserves(w: World, a: Action)
    requires StateInv(w)
    ensures Enters(w, a) + (if w.status == Suspended then 1 else 0) ==
              (if Leaves(a) && Enabled(w, a) then 1 else 0) + Loses(w, a)
              + (if Step(w, a).status == Suspended then 1 else 0)
  {}

  /** Every suspension entered is answered exactly once, lost to an unguarded write, or still open. */
  lemma {:induction false} SuspensionsConserved(actions: seq<Action>)
    ensures Entered(actions) ==
              Answered(actions) + Lost(actions) + (if Run(Created, actions).status == Suspended then 1 else 0)
  {
    if actions != [] {
      var k := |actions| - 1;
      SuspensionsConserved(actions[..k]);
      EveryHistory(actions[..k]);
      OneStepConserves(Run(Created, actions[..k]), actions[k]);
    }
  }

  /** No step of the run from `w` on suspends it anew. */
  predicate NoneEnters(w: World, actions: seq<Action>) {
    actions != [] ==>
      (var k := |actions| - 1;
       NoneEnters(w, actions[..k]) && Enters(Run(w, actions[..k]), actions[k]) == 0)
  }

  lemma {:induction false} StaysAwake(w: World, actions: seq<Action>)
    requires w.status != Suspended && NoneEnters(w, actions)
    ensures Run(w, actions).status != Suspended
  {
    if actions != [] { StaysAwake(w, actions[..|actions| - 1]); }
  }

  lemma AnswerWakes(w: World, a: Action)
    requires Leaves(a) && Enabled(w, a)
    ensures w.status == Suspended && Step(w, a).status in {Queued, Failed}
  {}

  lemma OnlySuspendedAnswered(w: World, a: Action)
    requires Leaves(a) && w.status != Suspended
    ensures Step(w, a) == w
  {}

  /** Of two callers answering the same suspension, whoever comes second changes nothing, whatever
      happens in between, as long as the run is not suspended anew. */
  lemma SecondAnswerChangesNothing(w: World, first: Action, between: seq<Action>, second: Action)
    requires Leaves(first) && Enabled(w, first) && Leaves(second)
    requires NoneEnters(Step(w, first), between)
    ensures Step(w, first).status in {Queued, Failed}
    ensures Step(Run(Step(w, first), between), second) == Run(Step(w, first), between)
  {
    AnswerWakes(w, first);
    StaysAwake(Step(w, first), between);
    OnlySuspendedAnswered(Run(Step(w, first), between), second);
  }

  // ------------------------------------------------------------------ settled steps stay settled

  /** A segment in progress knows of every settled step. */
  ghost predicate Aware(w: World) {
    w.seg.Some? ==> forall n :: Settled(w.rows, n) ==> n in w.seg.value.completed
  }

  /** The claim writes the last row of its step. */
  predicate WritesLast(w: World, a: Action) {
    Claims(w, a) && ReadBy(w, a).Some?
    && LastIndex(w.rows, w.rows[ReadBy(w, a).value].name) == ReadBy(w, a)
  }

  /** The claim leaves the row completed, not failed. */
  predicate Completes(w: World, a: Action)
    requires Claims(w, a)
  {
    a.Resume? && !PreExecution(w.callers[a.caller].error)
  }

  /** A resume that completes the last row of a step behind the back of a segment that has read its
      rows already and will not know. */
  predicate Blind(w: World, a: Action) {
    && WritesLast(w, a) && Completes(w, a) && w.seg.Some?
    && w.rows[ReadBy(w, a).value].name !in w.seg.value.completed
  }

  /** A claim of a caller whose row has been settled since, and that fails it. */
  predicate Unsettles(w: World, a: Action) {
    WritesLast(w, a) && !Completes(w, a) && CompletedRow(w.rows[ReadBy(w, a).value])
  }

  predicate Harms(w: World, a: Action) {
    Blind(w, a) || Unsettles(w, a)
  }

  predicate NoneHarms(w: World, actions: seq<Action>) {
    actions != [] ==>
      (var k := |actions| - 1;
       NoneHarms(w, actions[..k]) && !Harms(Run(w, actions[..k]), actions[k]))
  }

  /** Action `a` gives the step `n` a new row, as running or as skipped. */
  predicate Reaches(w: World, a: Action, n: Name) {
    (a.StartStep? || a.SkipGuarded?) && Enabled(w, a) && Current(w) == n
  }

  predicate AtRest(s: StepStatus) {
    s != StepRunning && s != StepSuspended
  }

  /** A claim that writes the last row of `n` although the row no longer waits. */
  predicate Disturbs(w: World, a: Action, n: Name) {
    WritesLast(w, a) && w.rows[ReadBy(w, a).value].name == n && AtRest(w.rows[ReadBy(w, a).value].status)
  }

  /** A change made by a step: it writes a row that was not at rest, or disturbs its step, or writes
      a row that is not the last of its step. */
  lemma ChangesOpenRow(w: World, a: Action)
    requires StateInv(w)
    ensures var c := ChangeOf(w, a);
      && Fits(w.rows, c)
      && (c.Set? && LastIndex(w.rows, w.rows[c.row].name) == Some(c.row) ==>
            !AtRest(w.rows[c.row].status) || Disturbs(w, a, w.rows[c.row].name))
      && (c.Appended? ==> Reaches(w, a, c.name))
  {}

  /** The last row of a name is safe while it is at rest, the step is not reached, and no claim
      disturbs it. */
  lemma RestingRowKept(w: World, a: Action, n: Name)
    requires StateInv(w)
    requires Latest(w.rows, n).Some? && AtRest(Latest(w.rows, n).value.status)
    requires !Reaches(w, a, n)
    ensures LastIndex(Step(w, a).rows, n) == LastIndex(w.rows, n)
    ensures !Disturbs(w, a, n) ==> Latest(Step(w, a).rows, n) == Latest(w.rows, n)
    ensures MaxAttempt(Step(w, a).rows, n) == MaxAttempt(w.rows, n)
  {
    StepChangesRows(w, a);
    ChangesOpenRow(w, a);
    LatestAfter(w.rows, ChangeOf(w, a), n);
  }

  /** A disturbed row is closed as the claim has it. */
  lemma DisturbedRow(w: World, a: Action, n: Name)
    requires StateInv(w) && Disturbs(w, a, n)
    ensures var row := w.rows[ReadBy(w, a).value];
      Latest(w.rows, n) == Some(row) && Latest(Step(w, a).rows, n) == Some(
        if a.Reject? then row.(status := StepFailed, output := if a.denial.Some? then a.denial else row.output)
        else row.(status := if Completes(w, a) then StepCompleted else StepFailed,
                  output := Some(Answer(w.callers[a.caller].error, a.data))))
  {
    StepChangesRows(w, a);
    LatestAfter(w.rows, ChangeOf(w, a), n);
  }

  lemma SettledNotReached(w: World, a: Action, n: Name)
    requires Aware(w) && Settled(w.rows, n)
    ensures !Reaches(w, a, n)
  {}

  /** A step becomes settled by succeeding, or by a resume that completes its last row. */
  lemma NewlySettled(w: World, a: Action, n: Name)
    requires StateInv(w) && !Settled(w.rows, n) && Settled(Step(w, a).rows, n)
    ensures Enabled(w, a)
    ensures (a.Succeed? && Current(w) == n)
      || (WritesLast(w, a) && Completes(w, a) && w.rows[ReadBy(w, a).value].name == n)
  {
    StepChangesRows(w, a);
    LatestAfter(w.rows, ChangeOf(w, a), n);
  }

  /** One step keeps a settled step settled exactly when it neither reaches it nor unsettles it. */
  lemma SettledKeptIff(w: World, a: Action, n: Name)
    requires StateInv(w) && Settled(w.rows, n) && !Reaches(w, a, n)
    ensures Settled(Step(w, a).rows, n) <==> !(Unsettles(w, a) && w.rows[ReadBy(w, a).value].name == n)
  {
    RestingRowKept(w, a, n);
    if Disturbs(w, a, n) { DisturbedRow(w, a, n); }
  }

  lemma CompletedGrows(w: World, a: Action)
    requires w.seg.Some? && Step(w, a).seg.Some?
    ensures w.seg.value.completed <= Step(w, a).seg.value.completed
    ensures a.Succeed? && Enabled(w, a) ==> Current(w) in Step(w, a).seg.value.completed
  {}

  lemma NewSegmentKnows(w: World, n: Name)
    requires w.seg.None? && Settled(w.rows, n)
    ensures n in Step(w, Load).seg.value.completed
  {
    LatestInNames(w.rows, n);
  }

  lemma AwareKept(w: World, a: Action)
    requires StateInv(w) && Aware(w) && !Blind(w, a)
    ensures Aware(Step(w, a))
  {
    var v := Step(w, a);
    if v.seg.Some? {
      forall n | Settled(v.rows, n) ensures n in v.seg.value.completed {
        if w.seg.None? {
          assert a.Load? && v.rows == w.rows;
          NewSegmentKnows(w, n);
        } else {
          CompletedGrows(w, a);
          if !Settled(w.rows, n) { NewlySettled(w, a, n); }
        }
      }
    }
  }

  predicate NeverReached(w: World, actions: seq<Action>, n: Name) {
    actions != [] ==>
      (var k := |actions| - 1;
       NeverReached(w, actions[..k], n) && !Reaches(Run(w, actions[..k]), actions[k], n))
  }

  lemma {:induction false} AwareFrom(w: World, actions: seq<Action>)
    requires StateInv(w) && Aware(w) && NoneHarms(w, actions)
    ensures StateInv(Run(w, actions)) && Aware(Run(w, actions))
  {
    if actions != [] {
      var before := actions[..|actions| - 1];
      AwareFrom(w, before);
      StateInvKept(Run(w, before), actions[|actions| - 1]);
      AwareKept(Run(w, before), actions[|actions| - 1]);
    }
  }

  /** Once the last row of a name is completed with a non-empty output, it is the last row of
      that name for ever, it stays completed with one, and no segment reaches the step again,
      whatever any planner plans and whoever writes the status, as long as no resume is blind and no
      claim fails a row that was settled since its caller read it. */
  lemma {:induction false} SettledForever(w: World, actions: seq<Action>, n: Name)
    requires StateInv(w) && Aware(w) && NoneHarms(w, actions) && Settled(w.rows, n)
    ensures LastIndex(Run(w, actions).rows, n) == LastIndex(w.rows, n)
    ensures Settled(Run(w, actions).rows, n)
    ensures NeverReached(w, actions, n)
  {
    if actions != [] {
      var before, last := actions[..|actions| - 1], actions[|actions| - 1];
      SettledForever(w, before, n);
      AwareFrom(w, before);
      SettledNotReached(Run(w, before), last, n);
      RestingRowKept(Run(w, before), last, n);
      SettledKeptIff(Run(w, before), last, n);
    }
  }

  predicate NoneDisturbs(w: World, actions: seq<Action>, n: Name) {
    actions != [] ==>
      (var k := |actions| - 1;
       NoneDisturbs(w, actions[..k], n) && !Disturbs(Run(w, actions[..k]), actions[k], n))
  }

  /** And if no claim writes the row after it was closed, the row never changes at all. */
  lemma {:induction false} SettledRowNeverChanges(w: World, actions: seq<Action>, n: Name)
    requires StateInv(w) && Aware(w) && NoneHarms(w, actions) && Settled(w.rows, n) && NoneDisturbs(w, actions, n)
    ensures Latest(Run(w, actions).rows, n) == Latest(w.rows, n)
  {
    if actions != [] {
      var before, last := actions[..|actions| - 1], actions[|actions| - 1];
      SettledRowNeverChanges(w, before, n);
      AwareFrom(w, before);
      SettledForever(w, before, n);
      SettledNotReached(Run(w, before), last, n);
      RestingRowKept(Run(w, before), last, n);
    }
  }

  /** `n` is settled before or after `a`, and after `more`, which does no further harm, it is not. */
  predicate Forgets(w: World, a: Action, n: Name, more: seq<Action>) {
    && (Settled(w.rows, n) || Settled(Step(w, a).rows, n))
    && NoneHarms(Step(w, a), more) && !Settled(Run(Step(w, a), more).rows, n)
  }

  lemma BlindResumeSettles(w: World, a: Action)
    requires StateInv(w) && Blind(w, a)
    ensures var (v, n) := (Step(w, a), w.rows[ReadBy(w, a).value].name);
      Settled(v.rows, n) && v.seg == w.seg && In(v, Loaded) && n !in v.seg.value.completed
  {
    StepChangesRows(w, a);
    LatestAfter(w.rows, ChangeOf(w, a), w.rows[ReadBy(w, a).value].name);
  }

  lemma {:induction false} WithoutClaimsNoHarm(w: World, actions: seq<Action>)
    requires forall k :: 0 <= k < |actions| ==> !actions[k].Resume? && !actions[k].Reject?
    ensures NoneHarms(w, actions)
  {
    if actions != [] { WithoutClaimsNoHarm(w, actions[..|actions| - 1]); }
  }

  lemma HarmForgets(w: World, a: Action) returns (n: Name, more: seq<Action>)
    requires StateInv(w) && Harms(w, a)
    ensures Forgets(w, a, n, more)
  {
    var v := Step(w, a);
    n := w.rows[ReadBy(w, a).value].name;
    if Blind(w, a) {
      BlindResumeSettles(w, a);
      var u;
      more, u := StartLoaded(v, [], v, n);
      LatestAfterAppend(v.rows, n, StepRunning, n);
      WithoutClaimsNoHarm(v, more);
    } else {
      SettledKeptIff(w, a, n);
      more := [];
      assert Run(v, more) == v;
    }
  }

  lemma HarmlessForgetsNothing(w: World, a: Action, n: Name, more: seq<Action>)
    requires StateInv(w) && Aware(w) && !Harms(w, a)
    ensures !Forgets(w, a, n, more)
  {
    var v := Step(w, a);
    StateInvKept(w, a);
    AwareKept(w, a);
    if Settled(w.rows, n) {
      SettledNotReached(w, a, n);
      SettledKeptIff(w, a, n);
    }
    if Settled(v.rows, n) && NoneHarms(v, more) { SettledForever(v, more, n); }
  }

  /** The exact condition: a step of a run lets some settled step be lost, at once or by later steps
      that are harmless in themselves, if and only if it is a blind resume or fails a settled row. */
  lemma ForgettingIffHarm(w: World, a: Action)
    requires StateInv(w) && Aware(w)
    ensures Harms(w, a) <==> exists n, more :: Forgets(w, a, n, more)
  {
    if Harms(w, a) {
      var n, more := HarmForgets(w, a);
    } else {
      forall n, more ensures !Forgets(w, a, n, more) { HarmlessForgetsNothing(w, a, n, more); }
    }
  }

  // ------------------------------------------------------------------ approved escalations

  /** An approved pre-execution escalation waits to be re-executed as attempt `k + 1`. */
  ghost predicate ApprovedPending(w: World, n: Name, k: nat) {
    && Latest(w.rows, n).Some? && ApprovedRow(Latest(w.rows, n).value) && MaxAttempt(w.rows, n) == k
    && (w.seg.Some? ==> n in w.seg.value.approvals)
  }

  /** The step is running again, as attempt `k + 1`, with the approval at hand. */
  ghost predicate Rerunning(w: World, n: Name, k: nat) {
    && InRow(w) && Current(w) == n && n in w.seg.value.approvals
    && Latest(w.rows, n) == Some(Row(n, k + 1, StepRunning, None))
  }

  lemma ApprovalsKept(w: World, a: Action)
    requires Step(w, a).seg.Some?
    ensures Step(w, a).seg.value.approvals == if w.seg.Some? then w.seg.value.approvals else ApprovedNames(w.rows)
  {}

  /** A claim of a caller whose row has been approved since, and that takes the approval away: it
      completes the row, or rejects it with a denial that is no approval. */
  predicate Revokes(w: World, a: Action, n: Name) {
    Disturbs(w, a, n) && (Completes(w, a) || (a.Reject? && a.denial.Some? && !a.denial.value.escalationApproved))
  }

  /** One step that does not reach the step keeps the approval pending exactly when it does not
      revoke it. */
  lemma ApprovedStaysPendingIff(w: World, a: Action, n: Name, k: nat)
    requires StateInv(w) && ApprovedPending(w, n, k) && !Reaches(w, a, n)
    ensures ApprovedPending(Step(w, a), n, k) <==> !Revokes(w, a, n)
  {
    RestingRowKept(w, a, n);
    if Disturbs(w, a, n) { DisturbedRow(w, a, n); }
    if Step(w, a).seg.Some? { ApprovalsKept(w, a); }
    LatestInNames(w.rows, n);
  }

  predicate NoneRevokes(w: World, actions: seq<Action>, n: Name) {
    actions != [] ==>
      (var k := |actions| - 1;
       NoneRevokes(w, actions[..k], n) && !Revokes(Run(w, actions[..k]), actions[k], n))
  }

  lemma ApprovedStarts(w: World, n: Name, k: nat)
    requires StateInv(w) && ApprovedPending(w, n, k) && Enabled(w, StartStep) && Current(w) == n
    ensures Rerunning(Step(w, StartStep), n, k)
  {
    LatestAfterAppend(w.rows, n, StepRunning, n);
  }

  /** The `j`-th action reaches the approved step, which was pending until then: it starts it as
      attempt `k + 1` with the approval at hand, or skips it because its guard is false. */
  ghost predicate ReachedAt(v: World, actions: seq<Action>, j: nat, n: Name, k: nat)
    requires j < |actions|
  {
    var before := Run(v, actions[..j]);
    && ApprovedPending(before, n, k)
    && Reaches(before, actions[j], n)
    && (actions[j].StartStep? ==> Rerunning(Step(before, actions[j]), n, k))
  }

  lemma {:induction false} PendingUntilReached(v: World, actions: seq<Action>, n: Name, k: nat)
    requires Inv(v) && ApprovedPending(v, n, k) && NoneRevokes(v, actions, n)
    ensures ApprovedPending(Run(v, actions), n, k) || exists j :: 0 <= j < |actions| && ReachedAt(v, actions, j, n, k)
  {
    if actions != [] {
      var last := |actions| - 1;
      var before := actions[..last];
      PendingUntilReached(v, before, n, k);
      if ApprovedPending(Run(v, before), n, k) {
        InvFrom(v, before);
        var w := Run(v, before);
        if Reaches(w, actions[last], n) {
          if actions[last].StartStep? { ApprovedStarts(w, n, k); }
          assert ReachedAt(v, actions, last, n, k);
        } else {
          ApprovedStaysPendingIff(w, actions[last], n, k);
        }
      } else {
        var j :| 0 <= j < last && ReachedAt(v, before, j, n, k);
        assert before[..j] == actions[..j];
        assert ReachedAt(v, actions, j, n, k);
      }
    }
  }

  /** `w` waits at row `i`, the last of its name, on a suspension of kind `kind`. */
  predicate WaitsAt(w: World, i: nat, kind: SuspensionKind) {
    && w.status == Suspended && w.error.Some? && w.error.value.kind == kind
    && i < |w.rows| && w.rows[i].status == StepSuspended && LastIndex(w.rows, w.rows[i].name) == Some(i)
  }

  /** Caller `c` read row `i`, and the error of a pre-execution escalation or not. */
  predicate HasRead(w: World, c: nat, i: nat, pre: bool) {
    Ready(w, c) && w.callers[c].row == Some(i) && PreExecution(w.callers[c].error) == pre
  }

  /** What a resume makes of the waiting row depends on the error its caller read. */
  lemma ResumeAnswers(w: World, c: nat, i: nat, pre: bool, data: Output, keep: bool)
    requires w.status == Suspended && HasRead(w, c, i, pre) && LastIndex(w.rows, w.rows[i].name) == Some(i)
    ensures var v := Step(w, Resume(c, data, keep));
      && Latest(v.rows, w.rows[i].name) == Some(w.rows[i].(
           status := if pre then StepFailed else StepCompleted,
           output := Some(if pre then data.(truthy := true, escalationApproved := true) else data.(truthy := true))))
      && MaxAttempt(v.rows, w.rows[i].name) == MaxAttempt(w.rows, w.rows[i].name)
      && v.seg == w.seg
  {
    StepChangesRows(w, Resume(c, data, keep));
    LatestAfter(w.rows, ChangeOf(w, Resume(c, data, keep)), w.rows[i].name);
  }

  /** Approving a pre-execution escalation that its caller read as one: the approval stands,
      whatever else happens to the run, until a segment starts the step as the next attempt (or its
      guard skips it), as long as no claim revokes it. */
  lemma ApprovedEscalationReruns(w: World, c: nat, i: nat, data: Output, keep: bool, actions: seq<Action>)
    requires Inv(w) && w.seg.None? && WaitsAt(w, i, Escalation(true)) && HasRead(w, c, i, true)
    requires NoneRevokes(Step(w, Resume(c, data, keep)), actions, w.rows[i].name)
    ensures var (v, n) := (Step(w, Resume(c, data, keep)), w.rows[i].name);
      var k := MaxAttempt(w.rows, n);
      ApprovedPending(Run(v, actions), n, k) || exists j :: 0 <= j < |actions| && ReachedAt(v, actions, j, n, k)
  {
    InvKept(w, Resume(c, data, keep));
    ResumeAnswers(w, c, i, true, data, keep);
    PendingUntilReached(Step(w, Resume(c, data, keep)), actions, w.rows[i].name, MaxAttempt(w.rows, w.rows[i].name));
  }

  /** Approving any other suspension (a gate, or an escalation after the tool ran) settles the
      waiting step: no segment ever reaches it again, as long as no step does harm, and its output is
      the caller's data for ever if no claim writes the row again. */
  lemma OtherApprovalNeverReruns(w: World, c: nat, i: nat, data: Output, keep: bool, actions: seq<Action>)
    requires StateInv(w) && Aware(w) && (WaitsAt(w, i, AtGate) || WaitsAt(w, i, Escalation(false)))
    requires HasRead(w, c, i, false) && !Blind(w, Resume(c, data, keep))
    requires NoneHarms(Step(w, Resume(c, data, keep)), actions)
    ensures var v := Step(w, Resume(c, data, keep));
      && NeverReached(v, actions, w.rows[i].name) && Settled(Run(v, actions).rows, w.rows[i].name)
      && (NoneDisturbs(v, actions, w.rows[i].name) ==>
            Latest(Run(v, actions).rows, w.rows[i].name) ==
              Some(w.rows[i].(status := StepCompleted, output := Some(data.(truthy := true)))))
  {
    var a := Resume(c, data, keep);
    ResumeAnswers(w, c, i, false, data, keep);
    StateInvKept(w, a);
    AwareKept(w, a);
    SettledForever(Step(w, a), actions, w.rows[i].name);
    if NoneDisturbs(Step(w, a), actions, w.rows[i].name) {
      SettledRowNeverChanges(Step(w, a), actions, w.rows[i].name);
    }
  }

  /** A caller that read its error under an earlier suspension, and the row under this one, gets a
      waiting step treated wrongly: the resume records an approval if and only if the error was that
      of a pre-execution escalation, so it suits the row if and only if that is so of the error now. */
  lemma ResumeSuitsRowIff(w: World, c: nat, i: nat, pre: bool, kind: SuspensionKind, data: Output, keep: bool)
    requires StateInv(w) && WaitsAt(w, i, kind) && HasRead(w, c, i, pre)
    ensures var v := Step(w, Resume(c, data, keep));
      (Approved(v.rows, w.rows[i].name) <==> kind == Escalation(true)) <==> (pre <==> kind == Escalation(true))
  {
    ResumeAnswers(w, c, i, pre, data, keep);
  }
}
