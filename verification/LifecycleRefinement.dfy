/** Segmented execution refines one straight pass.

    A deterministic workflow lists its steps. Run in one go, each step sees the results of the
    steps before it (`StraightPass`). Really it runs in segments, cut by gates, escalations,
    failures, timeouts and retries, each rebuilding its context from the rows and replanning
    what is left. Whatever the cuts, a run that completes has the results of the straight pass. */
module LifecycleRefinement {
  import opened Basics
  import opened RunModel
  import opened Lifecycle
  import opened LifecycleSafety

  /** What a step's action returns, given the results before it. */
  type Behaviour = (Name, map<Name, Output>) -> Output

  /** One left-to-right pass; a step that some resume completed yields that resume's data. */
  function StraightPass(spec: seq<Name>, act: Behaviour, gates: map<Name, Output>): (r: map<Name, Output>)
    ensures r.Keys == Upto(spec, |spec|)
  {
    if spec == [] then map[]
    else
      var k := |spec| - 1;
      var before := StraightPass(spec[..k], act, gates);
      assert Upto(spec, |spec|) == Upto(spec[..k], k) + {spec[k]};
      before[spec[k] := if spec[k] in gates then gates[spec[k]] else act(spec[k], before)]
  }

  function Upto(spec: seq<Name>, k: nat): set<Name>
    requires k <= |spec|
  {
    set i | 0 <= i < k :: spec[i]
  }

  ghost predicate Distinct(spec: seq<Name>) {
    forall i, j :: 0 <= i < j < |spec| ==> spec[i] != spec[j]
  }

  /** The plan of the deterministic planner: the listed steps that are not completed. */
  function Remaining(spec: seq<Name>, done: set<Name>): seq<Name> {
    if spec == [] then []
    else (if spec[0] in done then [] else [spec[0]]) + Remaining(spec[1..], done)
  }

  lemma {:induction false} RemainingSteps(spec: seq<Name>, done: set<Name>)
    ensures forall n :: n in Remaining(spec, done) <==> n in spec && n !in done
  {
    if spec != [] { RemainingSteps(spec[1..], done); }
  }

  lemma RemainingUnrolls(spec: seq<Name>, done: set<Name>, i: nat)
    requires i < |spec|
    ensures Remaining(spec[i..], done) == (if spec[i] in done then [] else [spec[i]]) + Remaining(spec[i + 1..], done)
  {
    assert spec[i..][1..] == spec[i + 1..];
  }

  method Plan(spec: seq<Name>, completedSteps: seq<Name>) returns (plan: seq<Name>)
    ensures plan == Remaining(spec, set n | n in completedSteps)
    ensures forall n :: n in plan <==> n in spec && n !in completedSteps
  {
    plan := [];
    ghost var done := set n | n in completedSteps;
    var i := 0;
    while i < |spec|
      invariant 0 <= i <= |spec|
      invariant plan + Remaining(spec[i..], done) == Remaining(spec, done)
    {
      RemainingUnrolls(spec, done, i);
      Reassociate(plan, if spec[i] in done then [] else [spec[i]], Remaining(spec[i + 1..], done));
      if spec[i] !in completedSteps {
        plan := plan + [spec[i]];
      }
      i := i + 1;
    }
    RemainingSteps(spec, done);
  }

  lemma {:induction false} RemainingKeepsAll(spec: seq<Name>, done: set<Name>)
    requires forall i :: 0 <= i < |spec| ==> spec[i] !in done
    ensures Remaining(spec, done) == spec
  {
    if spec != [] {
      RemainingKeepsAll(spec[1..], done);
      assert spec == [spec[0]] + spec[1..];
    }
  }

  /** When a prefix is completed, the plan is the rest. */
  lemma {:induction false} RemainingIsRest(spec: seq<Name>, done: set<Name>, k: nat)
    requires k <= |spec|
    requires forall i :: 0 <= i < |spec| ==> (spec[i] in done <==> i < k)
    ensures Remaining(spec, done) == spec[k..]
  {
    if k == 0 {
      RemainingKeepsAll(spec, done);
      assert spec[0..] == spec;
    } else {
      assert forall i :: 0 <= i < |spec| - 1 ==> spec[1..][i] == spec[i + 1];
      RemainingIsRest(spec[1..], done, k - 1);
      assert spec[1..][k - 1..] == spec[k..];
    }
  }

  /** A claim whose caller read a row that no longer waits, or found none when one waits now. */
  predicate Stale(w: World, a: Action) {
    Claims(w, a) && !Found(w, ReadBy(w, a))
  }

  /** A deterministic workflow without skipped or continued steps, whose successful steps return
      their action's non-empty output. */
  ghost predicate Follows(w: World, a: Action, spec: seq<Name>, act: Behaviour) {
    Enabled(w, a) ==>
      match a
      case MakePlan(plan) => plan == Remaining(spec, w.seg.value.completed)
      case Succeed(output) => output == act(Current(w), w.seg.value.results) && output.truthy
      case SkipGuarded(_) => false
      case HandleFailure(h, _, _, _, _, _) => h != Continue
      case _ => true
  }

  /** And no step overwrites a waiting status, claims the run on a stale read or resumes blindly: what
      `LifecycleSafety` shows a run cannot survive. */
  ghost predicate Deterministic(w: World, a: Action, spec: seq<Name>, act: Behaviour) {
    !Overwrites(w, a) && !Stale(w, a) && !Blind(w, a) && Follows(w, a, spec, act)
  }

  ghost predicate DeterministicRun(actions: seq<Action>, spec: seq<Name>, act: Behaviour) {
    actions != [] ==>
      (var k := |actions| - 1;
       && DeterministicRun(actions[..k], spec, act)
       && Deterministic(Run(Created, actions[..k]), actions[k], spec, act))
  }

  /** The rows hold exactly the first `k` steps of the straight pass, and the segment knows it. */
  ghost predicate Holds(w: World, spec: seq<Name>, act: Behaviour, k: nat) {
    && k <= |spec|
    && SettledResults(w.rows) == StraightPass(spec[..k], act, w.gates)
    && w.gates.Keys <= Upto(spec, k)
    && OneWaiting(w)
    && (forall i :: 0 <= i < |w.rows| && w.rows[i].status == StepSuspended ==>
          k < |spec| && w.rows[i].name == spec[k] && LastIndex(w.rows, spec[k]) == Some(i))
  }

  ghost predicate Knows(w: World, spec: seq<Name>, act: Behaviour, k: nat)
    requires k <= |spec|
  {
    w.seg.Some? ==>
      var s := w.seg.value;
      && s.completed == Upto(spec, k)
      && s.results == StraightPass(spec[..k], act, w.gates)
      && (s.phase != Loaded && s.phase != Planning ==> s.pos <= |s.plan| && s.plan[s.pos..] == spec[k..])
  }

  ghost predicate Sim(w: World, spec: seq<Name>, act: Behaviour, k: nat) {
    && StateInv(w)
    && Holds(w, spec, act, k) && Knows(w, spec, act, k)
    && (w.status == Completed ==> k == |spec|)
  }

  lemma PrefixNames(spec: seq<Name>, k: nat)
    requires k <= |spec| && Distinct(spec)
    ensures Upto(spec[..k], |spec[..k]|) == Upto(spec, k)
    ensures forall i :: 0 <= i < |spec| ==> (spec[i] in Upto(spec, k) <==> i < k)
    ensures k < |spec| ==> Upto(spec, k + 1) == Upto(spec, k) + {spec[k]}
  {}

  /** The next step in line is the one whose turn it is. */
  lemma CurrentIsNext(w: World, spec: seq<Name>, act: Behaviour, k: nat)
    requires k <= |spec| && Distinct(spec) && Knows(w, spec, act, k)
    requires HasStep(w) && w.seg.value.phase != Loaded && w.seg.value.phase != Planning
    ensures k < |spec| && Current(w) == spec[k] && Current(w) !in w.seg.value.completed
  {
    PrefixNames(spec, k);
    var s := w.seg.value;
    assert s.plan[s.pos..][0] == Current(w);
  }

  lemma SettledNamesAre(rows: seq<Row>, m: Name)
    ensures m in SettledNames(rows) <==> Settled(rows, m)
  {
    if Settled(rows, m) { LatestInNames(rows, m); }
  }

  lemma OtherSettledKept(rows: seq<Row>, c: Change, n: Name, m: Name)
    requires Fits(rows, c) && m != n
    requires (c.Appended? ==> c.name == n) && (c.Set? ==> rows[c.row].name == n)
    ensures m in SettledNames(Apply(rows, c)) <==> m in SettledNames(rows)
    ensures m in SettledNames(rows) ==>
              Latest(rows, m).value.output.Some? && Latest(Apply(rows, c), m) == Latest(rows, m)
  {
    LatestAfter(rows, c, m);
    SettledNamesAre(rows, m);
    SettledNamesAre(Apply(rows, c), m);
  }

  /** Only the settled results of `n` can differ, and `n` was not settled before. */
  lemma SettledResultsAfter(rows: seq<Row>, c: Change, n: Name)
    requires Fits(rows, c) && !Settled(rows, n)
    requires (c.Appended? ==> c.name == n) && (c.Set? ==> rows[c.row].name == n)
    ensures SettledResults(Apply(rows, c)) ==
              if Settled(Apply(rows, c), n)
              then SettledResults(rows)[n := Latest(Apply(rows, c), n).value.output.value]
              else SettledResults(rows)
  {
    var t := Apply(rows, c);
    SettledNamesAre(rows, n);
    SettledNamesAre(t, n);
    var expected :=
      if Settled(t, n) then SettledResults(rows)[n := Latest(t, n).value.output.value] else SettledResults(rows);
    forall m ensures m in SettledResults(t) <==> m in expected {
      if m != n { OtherSettledKept(rows, c, n, m); }
    }
    forall m | m in expected ensures SettledResults(t)[m] == expected[m] {
      if m != n { OtherSettledKept(rows, c, n, m); }
    }
  }

  lemma SettledIsUpto(w: World, spec: seq<Name>, act: Behaviour, k: nat, n: Name)
    requires Distinct(spec) && Holds(w, spec, act, k)
    ensures Settled(w.rows, n) <==> n in Upto(spec, k)
  {
    PrefixNames(spec, k);
    assert SettledResults(w.rows).Keys == Upto(spec, k);
    if Settled(w.rows, n) { LatestInNames(w.rows, n); }
  }

  /** A resume recorded for a later step does not change the pass up to here. */
  lemma {:induction false} PassIgnoresLaterGate(spec: seq<Name>, act: Behaviour, gates: map<Name, Output>,
                                                n: Name, o: Output)
    requires n !in spec
    ensures StraightPass(spec, act, gates[n := o]) == StraightPass(spec, act, gates)
  {
    if spec != [] {
      PassIgnoresLaterGate(spec[..|spec| - 1], act, gates, n, o);
    }
  }

  /** The row a step changes belongs to the step in line. */
  lemma ChangesNextRow(w: World, a: Action, spec: seq<Name>, act: Behaviour, k: nat)
    requires Distinct(spec) && Sim(w, spec, act, k) && !Stale(w, a) && !ChangeOf(w, a).Same?
    ensures var c := ChangeOf(w, a);
      && k < |spec| && Fits(w.rows, c)
      && (c.Appended? ==> c.name == spec[k])
      && (c.Set? ==> w.rows[c.row].name == spec[k] && LastIndex(w.rows, spec[k]) == Some(c.row))
  {
    StepChangesRows(w, a);
    ChangeSays(w, a);
    if !Leaves(a) { CurrentIsNext(w, spec, act, k); }
  }

  /** How many steps are settled after `a`. */
  function Progress(w: World, a: Action, k: nat): nat {
    var c := ChangeOf(w, a);
    if c.Set? && c.to == StepCompleted then k + 1 else k
  }

  lemma GatesAfter(w: World, a: Action)
    ensures Step(w, a).gates ==
              if a.Resume? && ChangeOf(w, a).Set? && ChangeOf(w, a).to == StepCompleted
              then w.gates[w.rows[ChangeOf(w, a).row].name := ChangeOf(w, a).output.value]
              else w.gates
    ensures ChangeOf(w, a).Set? && ChangeOf(w, a).to == StepCompleted ==> a.Resume? || a.Succeed?
    ensures a.Resume? && ChangeOf(w, a).Set? ==> ChangeOf(w, a).output.Some? && ChangeOf(w, a).output.value.truthy
    ensures ChangeOf(w, a).Set? && ChangeOf(w, a).to == StepCompleted ==> ChangeOf(w, a).output.Some?
  {}

  /** The settled results follow the pass by at most one step. */
  lemma ResultsFollowPass(w: World, a: Action, spec: seq<Name>, act: Behaviour, k: nat)
    requires Distinct(spec) && Sim(w, spec, act, k) && Deterministic(w, a, spec, act)
    ensures var (v, j) := (Step(w, a), Progress(w, a, k));
      && j <= |spec| && v.gates.Keys <= Upto(spec, j)
      && SettledResults(v.rows) == StraightPass(spec[..j], act, v.gates)
      && (j == k ==> v.gates == w.gates)
  {
    var c := ChangeOf(w, a);
    StepChangesRows(w, a);
    GatesAfter(w, a);
    PrefixNames(spec, k);
    if !c.Same? {
      ChangesNextRow(w, a, spec, act, k);
      var n := spec[k];
      SettledIsUpto(w, spec, act, k, n);
      LatestAfter(w.rows, c, n);
      SettledResultsAfter(w.rows, c, n);
      if Progress(w, a, k) == k + 1 {
        OneMoreStep(w, a, spec, act, k);
      }
    }
  }

  lemma PassExtends(spec: seq<Name>, act: Behaviour, gates: map<Name, Output>, k: nat)
    requires k < |spec| && Distinct(spec) && gates.Keys <= Upto(spec, k)
    ensures var before := StraightPass(spec[..k], act, gates);
      StraightPass(spec[..k + 1], act, gates) == before[spec[k] := act(spec[k], before)]
  {
    PrefixNames(spec, k);
    assert spec[..k + 1][..k] == spec[..k];
  }

  lemma PassExtendsAtGate(spec: seq<Name>, act: Behaviour, gates: map<Name, Output>, k: nat, o: Output)
    requires k < |spec| && Distinct(spec)
    ensures StraightPass(spec[..k + 1], act, gates[spec[k] := o]) == StraightPass(spec[..k], act, gates)[spec[k] := o]
  {
    assert spec[..k + 1][..k] == spec[..k];
    PassIgnoresLaterGate(spec[..k], act, gates, spec[k], o);
  }

  lemma OneMoreStep(w: World, a: Action, spec: seq<Name>, act: Behaviour, k: nat)
    requires k < |spec| && Distinct(spec) && Knows(w, spec, act, k) && w.gates.Keys <= Upto(spec, k)
    requires Deterministic(w, a, spec, act)
    requires ChangeOf(w, a).Set? && ChangeOf(w, a).to == StepCompleted && ChangeOf(w, a).output.Some?
    requires Fits(w.rows, ChangeOf(w, a)) && w.rows[ChangeOf(w, a).row].name == spec[k]
    ensures StraightPass(spec[..k + 1], act, Step(w, a).gates) ==
              StraightPass(spec[..k], act, w.gates)[spec[k] := ChangeOf(w, a).output.value]
    ensures ChangeOf(w, a).output.value.truthy
  {
    GatesAfter(w, a);
    if a.Resume? {
      PassExtendsAtGate(spec, act, w.gates, k, ChangeOf(w, a).output.value);
    } else {
      CurrentIsNext(w, spec, act, k);
      PassExtends(spec, act, w.gates, k);
    }
  }

  /** A row that waits after a change to rows none of which waited is the changed one. */
  lemma NewlyWaiting(rows: seq<Row>, c: Change, i: nat)
    requires !HasSuspended(rows) && Fits(rows, c) && i < |Apply(rows, c)| && Apply(rows, c)[i].status == StepSuspended
    requires c.Appended? ==> c.status != StepSuspended
    ensures c.Set? && c.to == StepSuspended && i == c.row
  {
    assert i < |rows| ==> rows[i].status != StepSuspended;
  }

  lemma WaitingRowIsNext(w: World, a: Action, spec: seq<Name>, act: Behaviour, k: nat)
    requires Distinct(spec) && Sim(w, spec, act, k) && Deterministic(w, a, spec, act)
    ensures OneWaiting(Step(w, a))
    ensures var v := Step(w, a);
      forall i :: 0 <= i < |v.rows| && v.rows[i].status == StepSuspended ==>
        Progress(w, a, k) == k < |spec| && v.rows[i].name == spec[k] && LastIndex(v.rows, spec[k]) == Some(i)
  {
    var (v, c) := (Step(w, a), ChangeOf(w, a));
    OneWaitingKeptIff(w, a);
    StepChangesRows(w, a);
    ChangeSays(w, a);
    WaitingAfter(w.rows, c);
    if !c.Same? {
      ChangesNextRow(w, a, spec, act, k);
      LatestAfter(w.rows, c, spec[k]);
      forall i | 0 <= i < |v.rows| && v.rows[i].status == StepSuspended
        ensures Progress(w, a, k) == k && v.rows[i].name == spec[k] && LastIndex(v.rows, spec[k]) == Some(i)
      {
        assert HasSuspended(v.rows);
        NewlyWaiting(w.rows, c, i);
      }
    }
  }

  lemma LoadKnows(w: World, spec: seq<Name>, act: Behaviour, k: nat)
    requires Distinct(spec) && Holds(w, spec, act, k) && w.seg.None?
    ensures Knows(Step(w, Load), spec, act, k)
  {
    PrefixNames(spec, k);
    assert SettledNames(w.rows) == SettledResults(w.rows).Keys;
  }

  lemma PlanKnows(w: World, plan: seq<Name>, spec: seq<Name>, act: Behaviour, k: nat)
    requires Distinct(spec) && k <= |spec| && Knows(w, spec, act, k) && Enabled(w, MakePlan(plan))
    requires plan == Remaining(spec, w.seg.value.completed)
    ensures Knows(Step(w, MakePlan(plan)), spec, act, k)
  {
    PrefixNames(spec, k);
    RemainingIsRest(spec, w.seg.value.completed, k);
    assert plan[0..] == plan;
  }

  lemma SuccessKnows(w: World, o: Output, spec: seq<Name>, act: Behaviour, k: nat)
    requires Distinct(spec) && k <= |spec| && Knows(w, spec, act, k) && w.gates.Keys <= Upto(spec, k)
    requires Enabled(w, Succeed(o)) && o == act(Current(w), w.seg.value.results)
    ensures k < |spec| && Knows(Step(w, Succeed(o)), spec, act, k + 1)
  {
    CurrentIsNext(w, spec, act, k);
    PassExtends(spec, act, w.gates, k);
    PrefixNames(spec, k);
    var s := w.seg.value;
    assert s.plan[s.pos + 1..] == s.plan[s.pos..][1..];
    assert spec[k + 1..] == spec[k..][1..];
  }

  /** Any other step of a segment leaves what it knows alone. */
  lemma SameKnowledge(w: World, a: Action, spec: seq<Name>, act: Behaviour, k: nat)
    requires k <= |spec| && Knows(w, spec, act, k) && Deterministic(w, a, spec, act)
    requires w.seg.Some? && Step(w, a).seg.Some?
    requires !a.MakePlan? && !a.Succeed? && !a.SkipCompleted? && !a.Resume?
    ensures Progress(w, a, k) == k && Knows(Step(w, a), spec, act, k)
  {}

  /** A resume that is not blind completes no step while a segment is in progress. */
  lemma ResumeBehindSegment(w: World, a: Action, spec: seq<Name>, act: Behaviour, k: nat)
    requires Distinct(spec) && Holds(w, spec, act, k) && Knows(w, spec, act, k)
    requires a.Resume? && Enabled(w, a) && w.seg.Some? && !Stale(w, a) && !Blind(w, a)
    ensures Step(w, a).gates == w.gates && Step(w, a).seg == w.seg && Progress(w, a, k) == k
  {
    PrefixNames(spec, k);
    if ReadBy(w, a).Some? {
      assert w.rows[ReadBy(w, a).value].name == spec[k] && spec[k] !in w.seg.value.completed;
    }
  }

  lemma SegmentKnows(w: World, a: Action, spec: seq<Name>, act: Behaviour, k: nat)
    requires Distinct(spec) && Holds(w, spec, act, k) && Knows(w, spec, act, k)
    requires Deterministic(w, a, spec, act)
    requires Progress(w, a, k) <= |spec|
    ensures Knows(Step(w, a), spec, act, Progress(w, a, k))
  {
    if Enabled(w, a) && Step(w, a).seg.Some? {
      if w.seg.None? {
        LoadKnows(w, spec, act, k);
      } else {
        match a
        case MakePlan(plan) => PlanKnows(w, plan, spec, act, k);
        case Succeed(o) => SuccessKnows(w, o, spec, act, k);
        case SkipCompleted => CurrentIsNext(w, spec, act, k);
        case Resume(_, _, _) => ResumeBehindSegment(w, a, spec, act, k);
        case _ => SameKnowledge(w, a, spec, act, k);
      }
    }
  }

  lemma EndOfPlan(w: World, spec: seq<Name>, act: Behaviour, k: nat)
    requires k <= |spec| && Knows(w, spec, act, k) && In(w, AtStep) && !HasStep(w)
    ensures k == |spec|
  {
    assert |w.seg.value.plan[w.seg.value.pos..]| == |spec[k..]|;
  }

  lemma CompletesLast(w: World, a: Action, spec: seq<Name>, act: Behaviour, k: nat)
    requires Distinct(spec) && Sim(w, spec, act, k) && Deterministic(w, a, spec, act)
    requires Step(w, a).status == Completed
    ensures Progress(w, a, k) == k == |spec|
  {
    if a.CompleteRun? && Enabled(w, a) { EndOfPlan(w, spec, act, k); }
    if k == |spec| && !ChangeOf(w, a).Same? { ChangesNextRow(w, a, spec, act, k); }
  }

  lemma HoldsKept(w: World, a: Action, spec: seq<Name>, act: Behaviour, k: nat)
    requires Distinct(spec) && Sim(w, spec, act, k) && Deterministic(w, a, spec, act)
    ensures Holds(Step(w, a), spec, act, Progress(w, a, k))
  {
    ResultsFollowPass(w, a, spec, act, k);
    WaitingRowIsNext(w, a, spec, act, k);
  }

  lemma SimKept(w: World, a: Action, spec: seq<Name>, act: Behaviour, k: nat)
    requires Distinct(spec) && Sim(w, spec, act, k) && Deterministic(w, a, spec, act)
    ensures Sim(Step(w, a), spec, act, Progress(w, a, k))
  {
    var v := Step(w, a);
    assert StateInv(v) by { StateInvKept(w, a); }
    assert Holds(v, spec, act, Progress(w, a, k)) by { HoldsKept(w, a, spec, act, k); }
    assert Knows(v, spec, act, Progress(w, a, k)) by { SegmentKnows(w, a, spec, act, k); }
    if v.status == Completed { CompletesLast(w, a, spec, act, k); }
  }

  lemma {:induction false} EveryDeterministicHistory(actions: seq<Action>, spec: seq<Name>, act: Behaviour)
    returns (k: nat)
    requires Distinct(spec) && DeterministicRun(actions, spec, act)
    ensures Sim(Run(Created, actions), spec, act, k)
  {
    if actions == [] {
      k := 0;
      assert SettledNames([]) == {};
    } else {
      var before := actions[..|actions| - 1];
      var j := EveryDeterministicHistory(before, spec, act);
      SimKept(Run(Created, before), actions[|actions| - 1], spec, act, j);
      k := Progress(Run(Created, before), actions[|actions| - 1], j);
    }
  }

  /** At every moment the restorable results are those of the straight pass over some prefix of
      the workflow, and when the run is completed, over all of it: same completed steps, same
      results, each resumed step with its resume data. */
  lemma SegmentsRefineOnePass(actions: seq<Action>, spec: seq<Name>, act: Behaviour) returns (k: nat)
    requires Distinct(spec) && DeterministicRun(actions, spec, act)
    ensures var w := Run(Created, actions);
      && k <= |spec|
      && SettledNames(w.rows) == Upto(spec, k)
      && SettledResults(w.rows) == StraightPass(spec[..k], act, w.gates)
      && (w.status == Completed ==>
            SettledNames(w.rows) == Upto(spec, |spec|) && SettledResults(w.rows) == StraightPass(spec, act, w.gates))
  {
    k := EveryDeterministicHistory(actions, spec, act);
    var w := Run(Created, actions);
    PrefixNames(spec, k);
    assert SettledResults(w.rows).Keys == SettledNames(w.rows);
    assert spec[..|spec|] == spec;
  }
}
