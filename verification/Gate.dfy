/** What stands between a planned step and its tool: grounding, the allowlist, the policy and
    budget checks, the verifier with its replan loop, and the retry loop around all of it.

    Agents, tools and checks are oracles. `Env` fixes what each of them answers at each moment
    of the executor's clock; nothing is assumed about the answers, so a result proved here holds
    whatever they do. */
module Gate {
  import Basics
  import opened RunModel

  datatype Mode = Deterministic | Agentic

  datatype Verdict = Pass | Fail | Replan | Escalate

  /** An oracle call either answers or raises; `structural` marks a WorkflowStructuralError. */
  datatype Answer<+T> = Returns(value: T) | Raises(structural: bool)

  datatype ReplanCause = Exhausted | DeterministicMode | EmptyReplan | LoopExited

  datatype Failure =
    | PolicyViolation                        // the executor's own class
    | Structural
    | EscalationRequired(preExecution: bool)
    | CritiqueFailure
    | ReplanRequired(cause: ReplanCause)
    | RunSuspended
    | OtherError                             // anything else, the policy engine's own violation included

  datatype Result<+T> = Ok(value: T) | Err(failure: Failure)

  datatype StepKind = ToolStep | Condition | HumanApproval | WebhookWait | Unknown

  datatype PlanStep = PlanStep(id: Name, kind: StepKind, maxRetries: int)

  datatype Event =
    | Grounded(tool: string)
    | Denied(tool: string)
    | PolicyChecked(tool: string, allowed: bool)
    | BudgetChecked(within: bool)
    | Verified(stepId: Name, tool: string, verdict: Verdict)
    | Replanned
    | Executed(tool: string)
    | Critiqued(verdict: Verdict)

  datatype Env = Env(
    ground: nat -> Answer<string>,
    policyAllows: nat -> bool,
    withinBudget: nat -> bool,
    verify: nat -> Answer<Verdict>,
    replan: nat -> Answer<seq<PlanStep>>,
    transform: nat -> bool,            // PII tokenizing or detokenizing; false when it refuses
    execute: nat -> Answer<string>,
    critique: nat -> Answer<Verdict>,
    evaluate: nat -> Answer<string>)   // condition steps

  /** The row of the step being executed. */
  datatype RowStatus = RowRunning | RowCompleted | RowFailed | RowSuspended

  function Bound(limit: int): nat {
    if limit + 1 < 0 then 0 else limit + 1
  }

  function Verifications(log: seq<Event>): nat {
    if log == [] then 0
    else Verifications(log[..|log| - 1]) + (if log[|log| - 1].Verified? then 1 else 0)
  }

  function Executions(log: seq<Event>): nat {
    if log == [] then 0
    else Executions(log[..|log| - 1]) + (if log[|log| - 1].Executed? then 1 else 0)
  }

  predicate InBounds(declared: set<string>, mode: Mode, tool: string) {
    tool in declared || (declared == {} && mode == Deterministic)
  }

  /** The last four events cleared exactly this tool: grounded, allowed, within budget, and
      passed by the verifier or escalated with an approval on record. */
  predicate Cleared(log: seq<Event>, tool: string, declared: set<string>, mode: Mode, approvals: set<Name>) {
    var n := |log|;
    && n >= 4
    && InBounds(declared, mode, tool)
    && log[n - 4] == Grounded(tool)
    && log[n - 3] == PolicyChecked(tool, true)
    && log[n - 2] == BudgetChecked(true)
    && log[n - 1].Verified? && log[n - 1].tool == tool
    && (log[n - 1].verdict == Pass || (log[n - 1].verdict == Escalate && log[n - 1].stepId in approvals))
  }

  /** Every tool execution in an attempt comes straight after its own clearance. */
  predicate Gated(log: seq<Event>, declared: set<string>, mode: Mode, approvals: set<Name>) {
    log == [] ||
    (var k := |log| - 1;
     && Gated(log[..k], declared, mode, approvals)
     && (log[k].Executed? ==> Cleared(log[..k], log[k].tool, declared, mode, approvals)))
  }

  lemma LogGrows(log: seq<Event>, e: Event, declared: set<string>, mode: Mode, approvals: set<Name>)
    ensures Verifications(log + [e]) == Verifications(log) + (if e.Verified? then 1 else 0)
    ensures Executions(log + [e]) == Executions(log) + (if e.Executed? then 1 else 0)
    ensures Gated(log + [e], declared, mode, approvals) <==>
              Gated(log, declared, mode, approvals) &&
              (e.Executed? ==> Cleared(log, e.tool, declared, mode, approvals))
  {
    assert (log + [e])[..|log| + 1 - 1] == log;
  }

  /** What `Gated` says of the `k`-th event, wherever it stands. */
  lemma {:induction false} GatedAt(log: seq<Event>, k: nat, declared: set<string>, mode: Mode, approvals: set<Name>)
    requires Gated(log, declared, mode, approvals)
    requires k < |log| && log[k].Executed?
    ensures k >= 4 && InBounds(declared, mode, log[k].tool)
    ensures log[k - 4] == Grounded(log[k].tool) && log[k - 3] == PolicyChecked(log[k].tool, true)
    ensures log[k - 2] == BudgetChecked(true)
    ensures log[k - 1].Verified? && log[k - 1].tool == log[k].tool
    ensures log[k - 1].verdict == Pass || (log[k - 1].verdict == Escalate && log[k - 1].stepId in approvals)
  {
    if k < |log| - 1 {
      GatedAt(log[..|log| - 1], k, declared, mode, approvals);
    }
  }

  /** A failure the retry loop re-raises at once. */
  predicate NotRetried(f: Failure) {
    f.PolicyViolation? || f.Structural? || f.EscalationRequired? || f.RunSuspended?
  }

  // ------------------------------------------------------------------ the replan loop, as a function

  /** What an attempt runs under. `names` are the steps of the run that have a row. */
  datatype Setting = Setting(
    env: Env,
    mode: Mode,
    declared: set<string>,
    approvals: set<Name>,
    maxReplan: int,
    names: set<Name>)

  function Raised(structural: bool): Failure { if structural then Structural else OtherError }

  predicate Enforced(c: Setting) { c.declared != {} || c.mode == Agentic }

  /** Grounding at the moment `at`: what it gives, and the events. The row is looked up by the id of the
      step in hand; there is none for an id a replan made up. */
  function GroundOf(c: Setting, step: PlanStep, at: nat): (Result<string>, seq<Event>) {
    match c.env.ground(at)
    case Raises(structural) => (Err(Raised(structural)), [])
    case Returns(tool) =>
      if step.id !in c.names then (Err(OtherError), [Grounded(tool)])
      else if Enforced(c) && tool !in c.declared then (Err(PolicyViolation), [Grounded(tool), Denied(tool)])
      else (Ok(tool), [Grounded(tool)])
  }

  function CheckOf(c: Setting, step: PlanStep, tool: string, at: nat): (Result<Verdict>, seq<Event>) {
    if !c.env.policyAllows(at) then (Err(PolicyViolation), [PolicyChecked(tool, false)])
    else if !c.env.withinBudget(at + 1) then (Err(PolicyViolation), [PolicyChecked(tool, true), BudgetChecked(false)])
    else match c.env.verify(at + 2)
      case Raises(structural) => (Err(Raised(structural)), [PolicyChecked(tool, true), BudgetChecked(true)])
      case Returns(v) => (Ok(v), [PolicyChecked(tool, true), BudgetChecked(true), Verified(step.id, tool, v)])
  }

  function ReviseOf(c: Setting, attempt: nat, at: nat): (Result<PlanStep>, seq<Event>) {
    if attempt >= c.maxReplan then (Err(ReplanRequired(Exhausted)), [])
    else if c.mode == Deterministic then (Err(ReplanRequired(DeterministicMode)), [])
    else match c.env.replan(at)
      case Raises(structural) => (Err(Raised(structural)), [])
      case Returns(plan) =>
        if plan == [] then (Err(ReplanRequired(EmptyReplan)), [])
        else if !c.env.withinBudget(at + 1) then (Err(PolicyViolation), [Replanned])
        else (Ok(plan[0]), [Replanned])
  }

  /** How a turn of the replan loop ends: the loop is left, or it goes on with a revised step. */
  datatype Turn = Leave(result: Result<string>) | Again(step: PlanStep)

  /** What a verdict on `tool` leads to, unless it asks for a replan. */
  function Decide(approvals: set<Name>, step: PlanStep, tool: string, verdict: Verdict): Result<string> {
    match verdict
    case Pass => Ok(tool)
    case Escalate => if step.id in approvals then Ok(tool) else Err(EscalationRequired(true))
    case _ => Err(CritiqueFailure)
  }

  /** A turn's parts, each a function of what it is about and the moment. */
  datatype Parts = Parts(
    ground: (PlanStep, nat) -> (Result<string>, seq<Event>),
    check: (PlanStep, string, nat) -> (Result<Verdict>, seq<Event>),
    revise: (nat, nat) -> (Result<PlanStep>, seq<Event>))

  function PartsOf(c: Setting): Parts {
    Parts((step: PlanStep, at: nat) => GroundOf(c, step, at),
          (step: PlanStep, tool: string, at: nat) => CheckOf(c, step, tool, at),
          (attempt: nat, at: nat) => ReviseOf(c, attempt, at))
  }

  /** One turn of the replan loop. */
  function TurnBy(p: Parts, approvals: set<Name>, step: PlanStep, attempt: nat, at: nat): (Turn, seq<Event>) {
    var (grounded, es) := p.ground(step, at);
    if grounded.Err? then (Leave(Err(grounded.failure)), es)
    else
      var (checked, checks) := p.check(step, grounded.value, at + |es|);
      if checked.Err? then (Leave(Err(checked.failure)), es + checks)
      else if checked.value != Replan then (Leave(Decide(approvals, step, grounded.value, checked.value)), es + checks)
      else
        var (revised, more) := p.revise(attempt, at + |es| + |checks|);
        (if revised.Ok? then Again(revised.value) else Leave(Err(revised.failure)), es + checks + more)
  }

  function TurnOf(c: Setting, step: PlanStep, attempt: nat, at: nat): (Turn, seq<Event>) {
    TurnBy(PartsOf(c), c.approvals, step, attempt, at)
  }

  /** What a turn does with a step, as the turn with this number and at this moment. */
  type Turning = (PlanStep, nat, nat) -> (Turn, seq<Event>)

  function TurningOf(c: Setting): Turning {
    (step: PlanStep, attempt: nat, at: nat) => TurnOf(c, step, attempt, at)
  }

  /** `turning` does what `c` says. Stated so that what it does stays out of sight where it does not matter. */
  ghost predicate TurnsUnder(turning: Turning, c: Setting) {
    forall x :: x == c ==> turning == TurningOf(x)
  }

  function Turns(turning: Turning, limit: int, step: PlanStep, attempt: nat, at: nat): (Result<string>, seq<Event>)
    decreases limit + 1 - attempt
  {
    if attempt > limit then (Err(ReplanRequired(LoopExited)), [])
    else
      var (turn, es) := turning(step, attempt, at);
      match turn
      case Leave(r) => (r, es)
      case Again(next) =>
        var (r, more) := Turns(turning, limit, next, attempt + 1, at + |es|);
        (r, es + more)
  }

  /** The whole loop, from the step in the plan on. */
  function Loop(c: Setting, step: PlanStep, at: nat): (Result<string>, seq<Event>) {
    Turns(TurningOf(c), c.maxReplan, step, 0, at)
  }

  /** A replan never renames the step it revises. */
  ghost predicate ReplansKeepId(env: Env, id: Name) {
    forall t :: env.replan(t).Returns? && env.replan(t).value != [] ==> env.replan(t).value[0].id == id
  }

  /** In deterministic mode, or with a planner that keeps ids, every verdict is about `id`. */
  ghost predicate KeepsId(c: Setting, id: Name) {
    c.mode == Deterministic || ReplansKeepId(c.env, id)
  }

  /** The attempt ends with the verifier escalating step `id`. */
  predicate EndsEscalated(log: seq<Event>, id: Name) {
    log != [] && log[|log| - 1].Verified? && log[|log| - 1].verdict == Escalate && log[|log| - 1].stepId == id
  }

  /** It ends so for a step that has a row, and no approval on record. */
  predicate EscalatedUnapproved(log: seq<Event>, approvals: set<Name>, names: set<Name>) {
    && log != [] && log[|log| - 1].Verified? && log[|log| - 1].verdict == Escalate
    && log[|log| - 1].stepId !in approvals && log[|log| - 1].stepId in names
  }

  predicate NoneExecuted(es: seq<Event>) { forall e :: e in es ==> !e.Executed? }

  lemma {:induction false} QuietAppend(log: seq<Event>, es: seq<Event>, declared: set<string>, mode: Mode,
                                       approvals: set<Name>)
    requires NoneExecuted(es)
    ensures Gated(log + es, declared, mode, approvals) <==> Gated(log, declared, mode, approvals)
    ensures Executions(log + es) == Executions(log)
    ensures Verifications(log + es) == Verifications(log) + Verifications(es)
  {
    if es == [] {
      assert log + es == log;
    } else {
      var init, e := es[..|es| - 1], es[|es| - 1];
      assert es == init + [e] && log + es == log + init + [e];
      QuietAppend(log, init, declared, mode, approvals);
      LogGrows(log + init, e, declared, mode, approvals);
      LogGrows(init, e, declared, mode, approvals);
    }
  }

  /** What leaving the loop with `r` after the events `es` means. */
  ghost predicate LeavesRightly(c: Setting, r: Result<string>, es: seq<Event>) {
    && (r.Ok? ==> Cleared(es, r.value, c.declared, c.mode, c.approvals))
    && (r == Err(EscalationRequired(true)) <==> EscalatedUnapproved(es, c.approvals, c.names))
    && (r.Err? ==> !r.failure.RunSuspended? && r.failure != EscalationRequired(false))
  }

  function Ask(e: Event): nat { if e.Verified? then 1 else 0 }

  lemma CountOne(e: Event)
    ensures Verifications([e]) == Ask(e)
  {
    LogGrows([], e, {}, Deterministic, {});
    assert [] + [e] == [e];
  }

  lemma CountTwo(e: Event, f: Event)
    ensures Verifications([e, f]) == Ask(e) + Ask(f)
  {
    CountOne(e);
    LogGrows([e], f, {}, Deterministic, {});
    assert [e] + [f] == [e, f];
  }

  lemma CountThree(e: Event, f: Event, g: Event)
    ensures Verifications([e, f, g]) == Ask(e) + Ask(f) + Ask(g)
  {
    CountTwo(e, f);
    LogGrows([e, f], g, {}, Deterministic, {});
    assert [e, f] + [g] == [e, f, g];
  }

  /** Events among which no tool ran and no verdict comes last. */
  predicate Harmless(es: seq<Event>) {
    NoneExecuted(es) && Verifications(es) == 0 && (es != [] ==> !es[|es| - 1].Verified?)
  }

  ghost predicate GroundsRightly(c: Setting, step: PlanStep, p: (Result<string>, seq<Event>)) {
    && Harmless(p.1)
    && (p.0.Ok? ==> p.1 == [Grounded(p.0.value)] && InBounds(c.declared, c.mode, p.0.value) && step.id in c.names)
    && (p.0.Err? ==> p.0.failure in {PolicyViolation, Structural, OtherError})
  }

  lemma GroundIs(c: Setting, step: PlanStep, at: nat)
    ensures GroundsRightly(c, step, GroundOf(c, step, at))
  {
    if c.env.ground(at).Returns? {
      CountOne(Grounded(c.env.ground(at).value));
      CountTwo(Grounded(c.env.ground(at).value), Denied(c.env.ground(at).value));
    }
  }

  predicate ChecksRightly(step: PlanStep, tool: string, p: (Result<Verdict>, seq<Event>)) {
    && (p.0.Ok? ==> p.1 == [PolicyChecked(tool, true), BudgetChecked(true), Verified(step.id, tool, p.0.value)])
    && (p.0.Err? ==> p.1 != [] && Harmless(p.1) && p.0.failure in {PolicyViolation, Structural, OtherError})
  }

  lemma CheckIs(c: Setting, step: PlanStep, tool: string, at: nat)
    ensures ChecksRightly(step, tool, CheckOf(c, step, tool, at))
  {
    CountOne(PolicyChecked(tool, false));
    CountTwo(PolicyChecked(tool, true), BudgetChecked(false));
    CountTwo(PolicyChecked(tool, true), BudgetChecked(true));
  }

  ghost predicate RevisesRightly(c: Setting, attempt: nat, p: (Result<PlanStep>, seq<Event>)) {
    && Harmless(p.1)
    && (p.0.Ok? ==> p.1 == [Replanned] && attempt < c.maxReplan)
    && (p.0.Err? ==> p.0.failure != ReplanRequired(LoopExited))
    && (p.0.Err? ==> !p.0.failure.RunSuspended? && !p.0.failure.EscalationRequired?)
    && (forall id :: p.0.Ok? && KeepsId(c, id) ==> p.0.value.id == id)
  }

  lemma ReviseIs(c: Setting, attempt: nat, at: nat)
    ensures RevisesRightly(c, attempt, ReviseOf(c, attempt, at))
  {
    CountOne(Replanned);
  }

  /** The three events of a check that was completed, after a grounding. */
  function Asked(tool: string, id: Name, verdict: Verdict): seq<Event> {
    [Grounded(tool), PolicyChecked(tool, true), BudgetChecked(true), Verified(id, tool, verdict)]
  }

  /** What a turn with the events `es` means for the step with the id `id`. */
  ghost predicate TurnsRightly(c: Setting, turn: Turn, es: seq<Event>, id: Name) {
    && NoneExecuted(es) && Verifications(es) <= 1
    && (turn.Leave? ==> LeavesRightly(c, turn.result, es) && turn.result != Err(ReplanRequired(LoopExited)))
    && (turn.Again? ==> es != [] && !es[|es| - 1].Verified?)
    && (EscalatedUnapproved(es, c.approvals, c.names) ==> EndsEscalated(es, id))
  }

  ghost predicate TurnFits(c: Setting, p: (Turn, seq<Event>), id: Name, attempt: nat) {
    && TurnsRightly(c, p.0, p.1, id)
    && (p.0.Again? ==> attempt < c.maxReplan && (KeepsId(c, id) ==> p.0.step.id == id))
  }

  ghost predicate AllFit(c: Setting, turning: Turning) {
    forall step: PlanStep, attempt, at :: TurnFits(c, turning(step, attempt, at), step.id, attempt)
  }

  /** A turn that failed before a verdict. */
  lemma FailedTurn(c: Setting, f: Failure, es: seq<Event>, id: Name)
    requires f in {PolicyViolation, Structural, OtherError}
    requires NoneExecuted(es) && Verifications(es) <= 1 && (es != [] ==> !es[|es| - 1].Verified?)
    ensures TurnsRightly(c, Leave(Err(f)), es, id)
  {}

  lemma AskedQuietly(tool: string, id: Name, verdict: Verdict)
    ensures NoneExecuted(Asked(tool, id, verdict)) && Verifications(Asked(tool, id, verdict)) == 1
  {
    var es := [Grounded(tool), PolicyChecked(tool, true), BudgetChecked(true)];
    CountThree(es[0], es[1], es[2]);
    LogGrows(es, Verified(id, tool, verdict), {}, Deterministic, {});
    assert es + [Verified(id, tool, verdict)] == Asked(tool, id, verdict);
  }

  /** A turn with a verdict. */
  lemma DecidedTurn(c: Setting, step: PlanStep, tool: string, verdict: Verdict)
    requires step.id in c.names && InBounds(c.declared, c.mode, tool) && verdict != Replan
    ensures TurnsRightly(c, Leave(Decide(c.approvals, step, tool, verdict)), Asked(tool, step.id, verdict), step.id)
  {
    AskedQuietly(tool, step.id, verdict);
  }

  /** A turn in which the verifier asks for a replan. */
  lemma RevisedTurn(c: Setting, step: PlanStep, attempt: nat, tool: string, p: (Result<PlanStep>, seq<Event>))
    requires RevisesRightly(c, attempt, p)
    ensures TurnFits(c, (if p.0.Ok? then Again(p.0.value) else Leave(Err(p.0.failure)),
                         Asked(tool, step.id, Replan) + p.1), step.id, attempt)
  {
    var asked := Asked(tool, step.id, Replan);
    var es := asked + p.1;
    AskedQuietly(tool, step.id, Replan);
    QuietAppend(asked, p.1, {}, c.mode, {});
    if p.1 != [] { assert es[|es| - 1] == p.1[|p.1| - 1]; } else { assert es == asked; }
    assert NoneExecuted(es) && !EscalatedUnapproved(es, c.approvals, c.names);
  }

  ghost predicate PartsFit(c: Setting, p: Parts) {
    && (forall step, at :: GroundsRightly(c, step, p.ground(step, at)))
    && (forall step, tool, at :: ChecksRightly(step, tool, p.check(step, tool, at)))
    && (forall attempt, at :: RevisesRightly(c, attempt, p.revise(attempt, at)))
  }

  lemma PartsAre(c: Setting)
    ensures PartsFit(c, PartsOf(c))
  {
    var p := PartsOf(c);
    forall step, at ensures GroundsRightly(c, step, p.ground(step, at)) { GroundIs(c, step, at); }
    forall step, tool, at ensures ChecksRightly(step, tool, p.check(step, tool, at)) { CheckIs(c, step, tool, at); }
    forall attempt, at ensures RevisesRightly(c, attempt, p.revise(attempt, at)) { ReviseIs(c, attempt, at); }
  }

  lemma UncheckedTurn(c: Setting, f: Failure, es: seq<Event>, checks: seq<Event>, id: Name)
    requires f in {PolicyViolation, Structural, OtherError} && Harmless(es) && Harmless(checks) && checks != []
    ensures TurnsRightly(c, Leave(Err(f)), es + checks, id)
  {
    QuietAppend(es, checks, {}, c.mode, {});
    assert (es + checks)[|es + checks| - 1] == checks[|checks| - 1];
    FailedTurn(c, f, es + checks, id);
  }

  lemma TurnIs(c: Setting, p: Parts, step: PlanStep, attempt: nat, at: nat)
    requires PartsFit(c, p)
    ensures TurnFits(c, TurnBy(p, c.approvals, step, attempt, at), step.id, attempt)
  {
    var (grounded, es) := p.ground(step, at);
    assert GroundsRightly(c, step, p.ground(step, at));
    if grounded.Err? {
      FailedTurn(c, grounded.failure, es, step.id);
    } else {
      var (checked, checks) := p.check(step, grounded.value, at + |es|);
      assert ChecksRightly(step, grounded.value, p.check(step, grounded.value, at + |es|));
      if checked.Err? {
        UncheckedTurn(c, checked.failure, es, checks, step.id);
      } else {
        assert es + checks == Asked(grounded.value, step.id, checked.value);
        if checked.value == Replan {
          var revised := p.revise(attempt, at + |es| + |checks|);
          assert RevisesRightly(c, attempt, revised);
          RevisedTurn(c, step, attempt, grounded.value, revised);
        } else {
          DecidedTurn(c, step, grounded.value, checked.value);
        }
      }
    }
  }

  /** The last events of a log are those of its end. */
  lemma LastEvents(es: seq<Event>, more: seq<Event>, k: nat)
    requires k < |more|
    ensures (es + more)[|es + more| - 1 - k] == more[|more| - 1 - k]
  {}

  lemma ClearedLater(c: Setting, tool: string, es: seq<Event>, more: seq<Event>)
    requires Cleared(more, tool, c.declared, c.mode, c.approvals)
    ensures Cleared(es + more, tool, c.declared, c.mode, c.approvals)
  {
    LastEvents(es, more, 0);
    LastEvents(es, more, 1);
    LastEvents(es, more, 2);
    LastEvents(es, more, 3);
  }

  lemma EscalatedLater(c: Setting, es: seq<Event>, more: seq<Event>)
    requires es != [] ==> !es[|es| - 1].Verified?
    ensures EscalatedUnapproved(es + more, c.approvals, c.names) <==> EscalatedUnapproved(more, c.approvals, c.names)
    ensures forall id :: EndsEscalated(more, id) ==> EndsEscalated(es + more, id)
  {
    if more == [] {
      assert es + more == es;
    } else {
      LastEvents(es, more, 0);
    }
  }

  lemma LeavesLater(c: Setting, r: Result<string>, es: seq<Event>, more: seq<Event>)
    requires LeavesRightly(c, r, more) && (es != [] ==> !es[|es| - 1].Verified?)
    ensures LeavesRightly(c, r, es + more)
  {
    EscalatedLater(c, es, more);
    if r.Ok? { ClearedLater(c, r.value, es, more); }
  }

  /** What leaving the loop after at most `turns` turns means for the step with the id `id`. */
  ghost predicate EndsRightly(c: Setting, r: Result<string>, es: seq<Event>, id: Name, turns: nat) {
    && NoneExecuted(es) && Verifications(es) <= turns && LeavesRightly(c, r, es)
    && (r == Err(ReplanRequired(LoopExited)) <==> turns == 0)
    && (KeepsId(c, id) && EscalatedUnapproved(es, c.approvals, c.names) ==> EndsEscalated(es, id))
  }

  lemma OneTurnMore(c: Setting, turn: Turn, es: seq<Event>, r: Result<string>, more: seq<Event>, id: Name, turns: nat)
    requires turn.Again? && TurnsRightly(c, turn, es, id) && (KeepsId(c, id) ==> turn.step.id == id)
    requires turns > 0 && EndsRightly(c, r, more, turn.step.id, turns)
    ensures EndsRightly(c, r, es + more, id, turns + 1)
  {
    QuietAppend(es, more, {}, c.mode, {});
    EscalatedLater(c, es, more);
    LeavesLater(c, r, es, more);
  }

  /** Whatever the oracles answer: no tool runs, the verifier is asked at most once a turn, the loop is
      left with a cleared tool, or with an escalation exactly when the last verdict is one for a step
      that has a row and no approval, and that step is the one in hand if replans keep its id. */
  lemma {:induction false} TurnsAre(c: Setting, turning: Turning, step: PlanStep, attempt: nat, at: nat)
    requires AllFit(c, turning)
    ensures var (r, es) := Turns(turning, c.maxReplan, step, attempt, at);
      EndsRightly(c, r, es, step.id, if attempt > c.maxReplan then 0 else c.maxReplan + 1 - attempt)
    decreases c.maxReplan + 1 - attempt
  {
    if attempt <= c.maxReplan {
      var (turn, es) := turning(step, attempt, at);
      assert TurnFits(c, turning(step, attempt, at), step.id, attempt);
      if turn.Again? {
        var (r, more) := Turns(turning, c.maxReplan, turn.step, attempt + 1, at + |es|);
        TurnsAre(c, turning, turn.step, attempt + 1, at + |es|);
        OneTurnMore(c, turn, es, r, more, step.id, c.maxReplan - attempt);
      }
    }
  }

  /** What the loop still does, before and after a turn. */
  lemma Unroll(turning: Turning, limit: int, step: PlanStep, attempt: nat, at: nat, turn: Turn, es: seq<Event>)
    returns (rest: (Result<string>, seq<Event>))
    requires attempt <= limit && (turn, es) == turning(step, attempt, at)
    ensures turn.Leave? ==> rest == (turn.result, [])
    ensures turn.Again? ==> rest == Turns(turning, limit, turn.step, attempt + 1, at + |es|)
    ensures Turns(turning, limit, step, attempt, at) == (rest.0, es + rest.1)
  {
    if turn.Leave? {
      rest := (turn.result, []);
      assert es + [] == es;
    } else {
      rest := Turns(turning, limit, turn.step, attempt + 1, at + |es|);
    }
  }

  lemma StillWhole(whole: (Result<string>, seq<Event>), log: seq<Event>, was: (Result<string>, seq<Event>),
                   es: seq<Event>, rest: (Result<string>, seq<Event>))
    requires whole == (was.0, log + was.1) && was == (rest.0, es + rest.1)
    ensures whole == (rest.0, log + es + rest.1)
  {
    Basics.Reassociate(log, es, rest.1);
  }

  lemma EndOfLog(log: seq<Event>, rest: seq<Event>)
    requires rest == []
    ensures log + rest == log
  {}

  lemma LoopIs(c: Setting, step: PlanStep, at: nat)
    ensures EndsRightly(c, Loop(c, step, at).0, Loop(c, step, at).1, step.id, Bound(c.maxReplan))
  {
    PartsAre(c);
    forall step: PlanStep, attempt, at ensures TurnFits(c, TurningOf(c)(step, attempt, at), step.id, attempt) {
      TurnIs(c, PartsOf(c), step, attempt, at);
    }
    TurnsAre(c, TurningOf(c), step, 0, at);
  }

  // ------------------------------------------------------------------ what the events say of the oracles

  /** The event was what its oracle answered at the moment `t`. */
  predicate TruthfulAt(env: Env, e: Event, t: nat) {
    match e
    case Grounded(tool) => env.ground(t) == Returns(tool)
    case Denied(_) => true
    case PolicyChecked(_, allowed) => allowed == env.policyAllows(t)
    case BudgetChecked(within) => within == env.withinBudget(t)
    case Verified(_, _, verdict) => env.verify(t) == Returns(verdict)
    case Replanned => env.replan(t).Returns? && env.replan(t).value != []
    case Executed(_) => env.transform(t)
    case Critiqued(verdict) => env.critique(t) == Returns(verdict)
  }

  predicate TruthfulThere(env: Env, at: nat, es: seq<Event>, k: nat) {
    k < |es| ==> TruthfulAt(env, es[k], at + k)
  }

  /** Every event of a log that began at the moment `at` was what its oracle answered. */
  ghost predicate Truthful(env: Env, at: nat, es: seq<Event>) {
    forall k: nat :: TruthfulThere(env, at, es, k)
  }

  predicate RaisedBy<T>(answer: Answer<T>, f: Failure) {
    answer.Raises? && f == if answer.structural then Structural else OtherError
  }

  /** `f` is the failure that the last event of an attempt leads to. The attempt began at the moment `at`. */
  predicate Decided(c: Setting, at: nat, es: seq<Event>, f: Failure) {
    var end := at + |es|;
    if es == [] then (f == ReplanRequired(LoopExited) && c.maxReplan < 0) || RaisedBy(c.env.ground(end), f)
    else match es[|es| - 1]
      case Grounded(_) => f == OtherError                  // the step in hand has no row
      case Denied(tool) => f == PolicyViolation && tool !in c.declared && (c.declared != {} || c.mode == Agentic)
      case PolicyChecked(_, allowed) => !allowed && f == PolicyViolation
      case BudgetChecked(within) =>
        if within then RaisedBy(c.env.verify(end), f) || RaisedBy(c.env.critique(end), f) else f == PolicyViolation
      case Verified(id, _, verdict) =>
        (match verdict
         case Pass => f == OtherError && !c.env.transform(end)
         case Fail => f == CritiqueFailure
         case Escalate =>
           if id in c.approvals then f == OtherError && !c.env.transform(end) else f == EscalationRequired(true)
         case Replan =>
           || f == ReplanRequired(Exhausted)
           || (f == ReplanRequired(DeterministicMode) && c.mode == Deterministic)
           || (f == ReplanRequired(EmptyReplan) && c.env.replan(end) == Returns([]))
           || RaisedBy(c.env.replan(end), f))
      case Replanned => (f == PolicyViolation && !c.env.withinBudget(end)) || RaisedBy(c.env.ground(end), f)
      case Executed(_) => RaisedBy(c.env.execute(at + |es| - 1), f)
      case Critiqued(verdict) =>
        (match verdict
         case Pass => false
         case Escalate => f == EscalationRequired(false)
         case _ => f == CritiqueFailure)
  }

  /** A verdict that clears the tool. */
  predicate Passed(approvals: set<Name>, e: Event) {
    e.Verified? && (e.verdict == Pass || (e.verdict == Escalate && e.stepId in approvals))
  }

  ghost predicate NonePassed(approvals: set<Name>, es: seq<Event>) { forall e :: e in es ==> !Passed(approvals, e) }

  /** No verdict but the last event's clears a tool. */
  ghost predicate OnlyLastPassed(approvals: set<Name>, es: seq<Event>) {
    forall k: nat :: k + 1 < |es| ==> !Passed(approvals, es[k])
  }

  /** From the moment `ready` on the arguments can be transformed, the tool returns, the budget is kept, and
      the critic passes the result. */
  predicate Lets(env: Env, ready: nat) {
    && env.transform(ready) && env.execute(ready).Returns?
    && env.withinBudget(ready + 1) && env.critique(ready + 2) == Returns(Pass)
  }

  /** What an attempt at a tool step owes to its events: it succeeds with what the tool returned, and only
      when the tool was cleared, ran, left the budget intact and was passed by the critic; otherwise its
      last event decides how it fails. A tool that a verdict has cleared succeeds when the oracles let it. */
  ghost predicate AttemptDecided(c: Setting, at: nat, log: seq<Event>, r: Result<string>) {
    && Truthful(c.env, at, log)
    && match r
       case Ok(value) =>
         var n := |log|;
         && n >= 7 && log[n - 1] == Critiqued(Pass) && log[n - 2] == BudgetChecked(true) && log[n - 3].Executed?
         && Cleared(log[..n - 3], log[n - 3].tool, c.declared, c.mode, c.approvals)
         && c.env.execute(at + n - 3) == Returns(value)
       case Err(f) =>
         && Decided(c, at, log, f)
         && (f == ReplanRequired(Exhausted) ==> Verifications(log) > c.maxReplan)
         && (forall k: nat :: k < |log| && Passed(c.approvals, log[k]) ==> !Lets(c.env, at + k + 1))
  }

  /** The same of an attempt at a step of any kind. */
  ghost predicate ActionDecided(c: Setting, kind: StepKind, at: nat, log: seq<Event>, r: Result<string>) {
    match kind
    case ToolStep => AttemptDecided(c, at, log, r)
    case Condition =>
      log == [] && (match c.env.evaluate(at)
                    case Returns(value) => r == Ok(value)
                    case Raises(structural) => r == Err(if structural then Structural else OtherError))
    case Unknown => log == [] && r == Err(Structural)
    case _ => log == [] && r == Err(RunSuspended)
  }

  lemma TruthfulJoin(env: Env, at: nat, es: seq<Event>, more: seq<Event>)
    requires Truthful(env, at, es) && Truthful(env, at + |es|, more)
    ensures Truthful(env, at, es + more)
  {
    forall k: nat ensures TruthfulThere(env, at, es + more, k) {
      if k < |es| {
        assert TruthfulThere(env, at, es, k);
      } else {
        assert TruthfulThere(env, at + |es|, more, k - |es|);
      }
    }
  }

  lemma DecidedLater(c: Setting, at: nat, es: seq<Event>, more: seq<Event>, f: Failure)
    requires more != [] && Decided(c, at + |es|, more, f)
    ensures Decided(c, at, es + more, f)
  {
    assert (es + more)[|es + more| - 1] == more[|more| - 1];
    assert at + |es + more| == at + |es| + |more|;
  }

  lemma PassedLater(approvals: set<Name>, es: seq<Event>, more: seq<Event>)
    requires OnlyLastPassed(approvals, es) && OnlyLastPassed(approvals, more)
    requires es != [] ==> !Passed(approvals, es[|es| - 1])
    ensures OnlyLastPassed(approvals, es + more)
  {
    forall k: nat | k + 1 < |es + more| ensures !Passed(approvals, (es + more)[k]) {
      if k < |es| { assert (es + more)[k] == es[k]; } else { assert (es + more)[k] == more[k - |es|]; }
    }
  }

  /** A turn's end: a failure is decided by the last event, a cleared tool was the last verdict's, and
      another turn follows a revision. */
  ghost predicate TurnHonest(c: Setting, p: (Turn, seq<Event>), at: nat, attempt: nat) {
    var (turn, es) := p;
    && Truthful(c.env, at, es) && OnlyLastPassed(c.approvals, es)
    && (turn.Again? ==> es != [] && es[|es| - 1] == Replanned && attempt < c.maxReplan && Verifications(es) == 1)
    && (turn.Leave? && turn.result.Err? ==>
          && Decided(c, at, es, turn.result.failure)
          && (es != [] ==> !Passed(c.approvals, es[|es| - 1]))
          && turn.result.failure != ReplanRequired(LoopExited)
          && (turn.result.failure == ReplanRequired(Exhausted) ==> attempt >= c.maxReplan && Verifications(es) == 1))
  }

  ghost predicate PartsHonest(c: Setting, p: Parts) {
    && (forall step, at :: GroundHonest(c, p.ground(step, at), at))
    && (forall step, tool, at :: CheckHonest(c, p.check(step, tool, at), at))
    && (forall attempt, at :: ReviseHonest(c, attempt, p.revise(attempt, at), at))
  }

  ghost predicate GroundHonest(c: Setting, p: (Result<string>, seq<Event>), at: nat) {
    && Truthful(c.env, at, p.1) && NonePassed(c.approvals, p.1)
    && (p.0.Err? ==> Decided(c, at, p.1, p.0.failure) && !p.0.failure.ReplanRequired?)
  }

  ghost predicate CheckHonest(c: Setting, p: (Result<Verdict>, seq<Event>), at: nat) {
    && Truthful(c.env, at, p.1)
    && (p.0.Err? ==> && p.1 != [] && Decided(c, at, p.1, p.0.failure) && NonePassed(c.approvals, p.1)
                     && !p.0.failure.ReplanRequired?)
  }

  ghost predicate ReviseHonest(c: Setting, attempt: nat, p: (Result<PlanStep>, seq<Event>), at: nat) {
    && Truthful(c.env, at, p.1) && (p.0.Ok? ==> p.1 == [Replanned] && attempt < c.maxReplan)
    && (p.0.Err? && p.1 != [] ==> p.1 == [Replanned] && p.0.failure == PolicyViolation && !c.env.withinBudget(at + 1))
    && (p.0.Err? && p.1 == [] ==>
          || (p.0.failure == ReplanRequired(Exhausted) && attempt >= c.maxReplan)
          || (p.0.failure == ReplanRequired(DeterministicMode) && c.mode == Deterministic)
          || (p.0.failure == ReplanRequired(EmptyReplan) && c.env.replan(at) == Returns([]))
          || RaisedBy(c.env.replan(at), p.0.failure))
  }

  lemma PartsAreHonest(c: Setting)
    ensures PartsHonest(c, PartsOf(c))
  {
    var p := PartsOf(c);
    forall step: PlanStep, at: nat ensures GroundHonest(c, p.ground(step, at), at) {}
    forall step: PlanStep, tool: string, at: nat ensures CheckHonest(c, p.check(step, tool, at), at) {}
    forall attempt: nat, at: nat ensures ReviseHonest(c, attempt, p.revise(attempt, at), at) {}
  }

  lemma RevisedIsHonest(c: Setting, step: PlanStep, attempt: nat, tool: string, p: (Result<PlanStep>, seq<Event>),
                        at: nat)
    requires Truthful(c.env, at, Asked(tool, step.id, Replan)) && ReviseHonest(c, attempt, p, at + 4)
    ensures TurnHonest(c, (if p.0.Ok? then Again(p.0.value) else Leave(Err(p.0.failure)),
                           Asked(tool, step.id, Replan) + p.1), at, attempt)
  {
    var asked := Asked(tool, step.id, Replan);
    AskedQuietly(tool, step.id, Replan);
    CountOne(Replanned);
    TruthfulJoin(c.env, at, asked, p.1);
    if p.1 == [] {
      assert asked + p.1 == asked;
    } else {
      QuietAppend(asked, p.1, {}, c.mode, {});
      assert (asked + p.1)[4] == Replanned && |asked + p.1| == 5;
    }
  }

  lemma DecidedIsHonest(c: Setting, step: PlanStep, attempt: nat, tool: string, verdict: Verdict, at: nat)
    requires Truthful(c.env, at, Asked(tool, step.id, verdict)) && verdict != Replan
    ensures TurnHonest(c, (Leave(Decide(c.approvals, step, tool, verdict)), Asked(tool, step.id, verdict)), at,
                        attempt)
  {}

  lemma UngroundedIsHonest(c: Setting, f: Failure, attempt: nat, es: seq<Event>, at: nat)
    requires GroundHonest(c, (Err(f), es), at)
    ensures TurnHonest(c, (Leave(Err(f)), es), at, attempt)
  {}

  lemma UncheckedIsHonest(c: Setting, f: Failure, attempt: nat, es: seq<Event>, checks: seq<Event>, at: nat)
    requires Truthful(c.env, at, es) && NonePassed(c.approvals, es) && CheckHonest(c, (Err(f), checks), at + |es|)
    ensures TurnHonest(c, (Leave(Err(f)), es + checks), at, attempt)
  {
    TruthfulJoin(c.env, at, es, checks);
    DecidedLater(c, at, es, checks, f);
    assert (es + checks)[|es + checks| - 1] == checks[|checks| - 1];
  }

  lemma TurnIsHonest(c: Setting, p: Parts, step: PlanStep, attempt: nat, at: nat)
    requires PartsFit(c, p) && PartsHonest(c, p)
    ensures TurnHonest(c, TurnBy(p, c.approvals, step, attempt, at), at, attempt)
  {
    var (grounded, es) := p.ground(step, at);
    assert GroundsRightly(c, step, p.ground(step, at)) && GroundHonest(c, p.ground(step, at), at);
    if grounded.Err? {
      UngroundedIsHonest(c, grounded.failure, attempt, es, at);
    } else {
      var tool := grounded.value;
      var (checked, checks) := p.check(step, tool, at + |es|);
      assert ChecksRightly(step, tool, p.check(step, tool, at + |es|));
      assert CheckHonest(c, p.check(step, tool, at + |es|), at + |es|);
      if checked.Err? {
        UncheckedIsHonest(c, checked.failure, attempt, es, checks, at);
      } else {
        TruthfulJoin(c.env, at, es, checks);
        assert es + checks == Asked(tool, step.id, checked.value);
        if checked.value == Replan {
          var revised := p.revise(attempt, at + |es| + |checks|);
          assert ReviseHonest(c, attempt, p.revise(attempt, at + |es| + |checks|), at + |es| + |checks|);
          RevisedIsHonest(c, step, attempt, tool, revised, at);
        } else {
          DecidedIsHonest(c, step, attempt, tool, checked.value, at);
        }
      }
    }
  }

  /** The same of the loop, when `left` turns are left. */
  ghost predicate LoopHonest(c: Setting, p: (Result<string>, seq<Event>), at: nat, left: int) {
    var (r, es) := p;
    && Truthful(c.env, at, es) && OnlyLastPassed(c.approvals, es)
    && (r.Err? ==>
          && Decided(c, at, es, r.failure)
          && (es != [] ==> !Passed(c.approvals, es[|es| - 1]))
          && (r.failure == ReplanRequired(Exhausted) ==> Verifications(es) >= left))
  }

  lemma LeftIsDecided(c: Setting, p: (Result<string>, seq<Event>), at: nat)
    requires LoopHonest(c, p, at, c.maxReplan + 1)
    ensures p.0.Err? ==> AttemptDecided(c, at, p.1, p.0)
  {
    if p.0.Err? {
      forall k: nat | k < |p.1| ensures !Passed(c.approvals, p.1[k]) {}
    }
  }

  lemma {:induction false} VerificationsJoin(es: seq<Event>, more: seq<Event>)
    ensures Verifications(es + more) == Verifications(es) + Verifications(more)
  {
    if more == [] {
      assert es + more == es;
    } else {
      VerificationsJoin(es, more[..|more| - 1]);
      assert (es + more)[..|es + more| - 1] == es + more[..|more| - 1];
    }
  }

  lemma OneTurnMoreHonest(c: Setting, turn: Turn, es: seq<Event>, p: (Result<string>, seq<Event>), at: nat,
                          attempt: nat, left: int)
    requires turn.Again? && TurnHonest(c, (turn, es), at, attempt)
    requires LoopHonest(c, p, at + |es|, left)
    ensures LoopHonest(c, (p.0, es + p.1), at, left + 1)
  {
    var more := p.1;
    TruthfulJoin(c.env, at, es, more);
    PassedLater(c.approvals, es, more);
    VerificationsJoin(es, more);
    if p.0.Err? {
      if more == [] {
        assert es + more == es;
      } else {
        DecidedLater(c, at, es, more, p.0.failure);
        assert (es + more)[|es + more| - 1] == more[|more| - 1];
      }
    }
  }

  lemma {:induction false} TurnsAreHonest(c: Setting, turning: Turning, step: PlanStep, attempt: nat, at: nat)
    requires forall step: PlanStep, attempt, at :: TurnHonest(c, turning(step, attempt, at), at, attempt)
    requires attempt > c.maxReplan ==> attempt == 0
    ensures LoopHonest(c, Turns(turning, c.maxReplan, step, attempt, at), at, c.maxReplan + 1 - attempt)
    decreases c.maxReplan + 1 - attempt
  {
    if attempt <= c.maxReplan {
      var (turn, es) := turning(step, attempt, at);
      assert TurnHonest(c, turning(step, attempt, at), at, attempt);
      if turn.Again? {
        var rest := Turns(turning, c.maxReplan, turn.step, attempt + 1, at + |es|);
        TurnsAreHonest(c, turning, turn.step, attempt + 1, at + |es|);
        OneTurnMoreHonest(c, turn, es, rest, at, attempt, c.maxReplan - attempt);
      }
    }
  }

  /** Whatever the oracles answer, the events of the loop are their answers, its failure is the one its
      last event leads to, and it gives up as exhausted only after all its turns. */
  lemma LoopIsHonest(c: Setting, step: PlanStep, at: nat)
    ensures LoopHonest(c, Loop(c, step, at), at, c.maxReplan + 1)
  {
    PartsAre(c);
    PartsAreHonest(c);
    forall step: PlanStep, attempt: nat, at: nat
      ensures TurnHonest(c, TurningOf(c)(step, attempt, at), at, attempt)
    {
      TurnIsHonest(c, PartsOf(c), step, attempt, at);
    }
    TurnsAreHonest(c, TurningOf(c), step, 0, at);
  }

  /** What running a cleared tool at the moment `at` comes to: the events, and the result they decide. */
  ghost predicate RanRightly(env: Env, at: nat, tool: string, r: Result<string>, es: seq<Event>) {
    if !env.transform(at) then r == Err(OtherError) && es == []
    else if env.execute(at).Raises? then
      r == Err(if env.execute(at).structural then Structural else OtherError) && es == [Executed(tool)]
    else if !env.withinBudget(at + 1) then
      r == Err(PolicyViolation) && es == [Executed(tool), BudgetChecked(false)]
    else match env.critique(at + 2)
      case Raises(structural) =>
        r == Err(if structural then Structural else OtherError) && es == [Executed(tool), BudgetChecked(true)]
      case Returns(verdict) =>
        && es == [Executed(tool), BudgetChecked(true), Critiqued(verdict)]
        && (match verdict
            case Pass => r == Ok(env.execute(at).value)
            case Escalate => r == Err(EscalationRequired(false))
            case _ => r == Err(CritiqueFailure))
  }

  /** What the last event of an attempt says when it is the critic's, and what success takes. */
  lemma CriticDecides(c: Setting, at: nat, log: seq<Event>, r: Result<string>)
    requires AttemptDecided(c, at, log, r)
    ensures r.Ok? ==>
      && |log| >= 7 && log[|log| - 1] == Critiqued(Pass) && log[|log| - 2] == BudgetChecked(true)
      && log[|log| - 3].Executed?
      && Cleared(log[..|log| - 3], log[|log| - 3].tool, c.declared, c.mode, c.approvals)
      && c.env.execute(at + |log| - 3) == Returns(r.value)
    ensures log != [] && log[|log| - 1] in {Critiqued(Fail), Critiqued(Replan)} ==> r == Err(CritiqueFailure)
    ensures log != [] && log[|log| - 1] == Critiqued(Escalate) ==> r == Err(EscalationRequired(false))
    ensures forall k: nat :: k < |log| && Passed(c.approvals, log[k]) && Lets(c.env, at + k + 1) ==> r.Ok?
  {}

  lemma WherePassed(approvals: set<Name>, es: seq<Event>, ran: seq<Event>)
    requires OnlyLastPassed(approvals, es) && forall e :: e in ran ==> !e.Verified?
    ensures forall k: nat :: k < |es + ran| && Passed(approvals, (es + ran)[k]) ==> k + 1 == |es|
  {
    forall k: nat | k < |es + ran| ensures Passed(approvals, (es + ran)[k]) ==> k + 1 == |es| {
      if k < |es| { assert (es + ran)[k] == es[k]; } else { assert (es + ran)[k] == ran[k - |es|]; }
    }
  }

  lemma RanWell(c: Setting, at: nat, es: seq<Event>, tool: string, value: string)
    requires Truthful(c.env, at, es) && Cleared(es, tool, c.declared, c.mode, c.approvals)
    requires RanRightly(c.env, at + |es|, tool, Ok(value), [Executed(tool), BudgetChecked(true), Critiqued(Pass)])
    ensures AttemptDecided(c, at, es + [Executed(tool), BudgetChecked(true), Critiqued(Pass)], Ok(value))
  {
    var ran := [Executed(tool), BudgetChecked(true), Critiqued(Pass)];
    TruthfulJoin(c.env, at, es, ran);
    assert (es + ran)[..|es|] == es && (es + ran)[|es|..] == ran;
  }

  lemma RanBadly(c: Setting, at: nat, es: seq<Event>, tool: string, f: Failure, ran: seq<Event>)
    requires Truthful(c.env, at, es) && OnlyLastPassed(c.approvals, es)
    requires es != [] && Passed(c.approvals, es[|es| - 1])
    requires RanRightly(c.env, at + |es|, tool, Err(f), ran)
    ensures AttemptDecided(c, at, es + ran, Err(f))
  {
    TruthfulJoin(c.env, at, es, ran);
    WherePassed(c.approvals, es, ran);
    if ran == [] { assert es + ran == es; } else { DecidedLater(c, at, es, ran, f); }
  }

  /** After the tool `v` was cleared by the events `es`, an attempt is decided as it should be; it neither
      waits at a gate nor is suspended by the verifier. */
  lemma RanIsDecided(c: Setting, at: nat, ready: nat, es: seq<Event>, v: Result<string>, r: Result<string>,
                     ran: seq<Event>)
    requires Truthful(c.env, at, es) && OnlyLastPassed(c.approvals, es)
    requires v.Ok? && LeavesRightly(c, v, es) && ready == at + |es|
    requires RanRightly(c.env, ready, v.value, r, ran)
    ensures AttemptDecided(c, at, es + ran, r)
    ensures !EscalatedUnapproved(es + ran, c.approvals, c.names)
    ensures r != Err(EscalationRequired(true)) && r != Err(RunSuspended)
    ensures r.Ok? || r.failure.EscalationRequired? ==> c.env.transform(ready)
  {
    if r.Ok? {
      RanWell(c, at, es, v.value, r.value);
    } else {
      RanBadly(c, at, es, v.value, r.failure, ran);
    }
    if ran == [] { assert es + ran == es; } else { assert (es + ran)[|es + ran| - 1] == ran[|ran| - 1]; }
  }

  /** An approved step is suspended by the verifier again if and only if replans lead to another step,
      which has a row and no approval, and that one is escalated. */
  lemma ApprovedSuspendedIff(c: Setting, step: PlanStep, at: nat)
    requires step.id in c.approvals
    ensures var (r, es) := Loop(c, step, at);
      r == Err(EscalationRequired(true)) <==>
        exists id :: id in c.names && id !in c.approvals && id != step.id && EndsEscalated(es, id)
  {
    LoopIs(c, step, at);
    var es := Loop(c, step, at).1;
    if EscalatedUnapproved(es, c.approvals, c.names) { assert EndsEscalated(es, es[|es| - 1].stepId); }
  }

  /** It does happen, for any two steps of a run: the verifier asks for a replan, the planner answers
      with the other step, and the verifier escalates that one. If the other step has no row, the lookup
      raises instead, and the attempt ends in an ordinary error. */
  lemma RenamedIsSuspended(id: Name, other: Name, known: bool, tool: string, at: nat)
    requires id != other
    ensures var c := Renaming(id, other, known, tool, at);
      id in c.approvals && Loop(c, PlanStep(id, ToolStep, 0), at).0
                             == Err(if known then EscalationRequired(true) else OtherError)
  {
    var c := Renaming(id, other, known, tool, at);
    var (first, second) := (PlanStep(id, ToolStep, 0), PlanStep(other, ToolStep, 0));
    var asked := Asked(tool, id, Replan);
    assert CheckOf(c, first, tool, at + 1) ==
      (Ok(Replan), [PolicyChecked(tool, true), BudgetChecked(true), Verified(id, tool, Replan)]);
    assert [Grounded(tool)] + [PolicyChecked(tool, true), BudgetChecked(true), Verified(id, tool, Replan)] == asked;
    assert TurnOf(c, first, 0, at) == (Again(second), asked + [Replanned]);
    assert |asked + [Replanned]| == 5;
    if known {
      assert CheckOf(c, second, tool, at + 6) ==
        (Ok(Escalate), [PolicyChecked(tool, true), BudgetChecked(true), Verified(other, tool, Escalate)]);
    }
    assert TurnOf(c, second, 1, at + 5).0 == Leave(Err(if known then EscalationRequired(true) else OtherError));
  }

  function Renaming(id: Name, other: Name, known: bool, tool: string, at: nat): Setting {
    var env := Env(
      _ => Returns(tool), _ => true, _ => true,
      t => Returns(if t < at + 5 then Replan else Escalate),
      _ => Returns([PlanStep(other, ToolStep, 0)]),
      _ => true, _ => Returns(""), _ => Returns(Pass), _ => Returns(""));
    Setting(env, Agentic, {tool}, {id}, 1, if known then {id, other} else {id})
  }

  /** Where an id without a row leads, whatever the oracles answer. */
  lemma UnknownNeverEscalates(c: Setting, step: PlanStep, attempt: nat, at: nat)
    requires step.id !in c.names
    ensures TurnOf(c, step, attempt, at).0 in {Leave(Err(OtherError)), Leave(Err(Structural))}
  {}

  /** What one attempt of a tool step may leave behind. */
  predicate AttemptOk(log: seq<Event>, declared: set<string>, mode: Mode, approvals: set<Name>, maxReplan: int) {
    && Gated(log, declared, mode, approvals)
    && Verifications(log) <= Bound(maxReplan)
    && Executions(log) <= 1
  }

  datatype SpecStep = SpecStep(kind: string, tool: string)

  const ARTIFACT_KINDS := {"artifact.store", "artifact.retrieve"}

  predicate StartsWithAi(s: string) {
    |s| >= 3 && s[..3] == "ai."
  }

  /** The tools one declared step contributes to the allowlist. */
  function DeclaredBy(step: SpecStep): set<string> {
    if step.kind == "tool.call" then (if step.tool != "" then {step.tool} else {})
    else if StartsWithAi(step.kind) || step.kind in ARTIFACT_KINDS then {step.kind}
    else if step.kind == "webhook.wait" then {"webhook_wait"}
    else {}
  }

  function DeclaredByAll(steps: seq<SpecStep>): set<string> {
    set s, t | s in steps && t in DeclaredBy(s) :: t
  }

  lemma DeclaredByOneMore(steps: seq<SpecStep>, i: nat)
    requires i < |steps|
    ensures DeclaredByAll(steps[..i + 1]) == DeclaredByAll(steps[..i]) + DeclaredBy(steps[i])
  {
    assert steps[..i + 1] == steps[..i] + [steps[i]];
  }

  lemma DeclaredByMeans(s: SpecStep, t: string)
    ensures t in DeclaredBy(s) <==>
      (|| (s.kind == "tool.call" && s.tool == t != "")
       || (s.kind == t && |t| >= 3 && t[..3] == "ai.")
       || (s.kind == t && t in {"artifact.store", "artifact.retrieve"})
       || (t == "webhook_wait" && s.kind == "webhook.wait"))
  {
    assert "tool.call"[0] == 't' && "webhook.wait"[0] == 'w' && "ai."[0] == 'a';
    assert "tool.call"[..3][0] == 't' && "webhook.wait"[..3][0] == 'w';
  }

  lemma DeclaredMeans(steps: seq<SpecStep>, t: string)
    ensures t in DeclaredByAll(steps) <==>
      (|| (exists s :: s in steps && s.kind == "tool.call" && s.tool == t != "")
       || (exists s :: s in steps && s.kind == t && |t| >= 3 && t[..3] == "ai.")
       || (exists s :: s in steps && s.kind == t && t in {"artifact.store", "artifact.retrieve"})
       || (t == "webhook_wait" && exists s :: s in steps && s.kind == "webhook.wait"))
  {
    forall s | s in steps { DeclaredByMeans(s, t); }
  }

  /** The tools listed, the tools that tool steps name, the kinds of the steps that are tools themselves,
      and the wait for a webhook. */
  method DeriveDeclaredTools(explicit: set<string>, steps: seq<SpecStep>) returns (declared: set<string>)
    ensures forall t :: t in declared <==>
              (|| t in explicit
               || (exists s :: s in steps && s.kind == "tool.call" && s.tool == t != "")
               || (exists s :: s in steps && s.kind == t && |t| >= 3 && t[..3] == "ai.")
               || (exists s :: s in steps && s.kind == t && t in {"artifact.store", "artifact.retrieve"})
               || (t == "webhook_wait" && exists s :: s in steps && s.kind == "webhook.wait"))
  {
    declared := DeriveEach(explicit, steps);
    forall t { DeclaredMeans(steps, t); }
  }

  /** Its loop. */
  method DeriveEach(explicit: set<string>, steps: seq<SpecStep>) returns (declared: set<string>)
    ensures declared == explicit + DeclaredByAll(steps)
  {
    declared := explicit;
    var i := 0;
    while i < |steps|
      invariant 0 <= i <= |steps|
      invariant declared == explicit + DeclaredByAll(steps[..i])
    {
      var step := steps[i];
      if step.kind == "tool.call" {
        if step.tool != "" {
          declared := declared + {step.tool};
        }
      } else if StartsWithAi(step.kind) {
        declared := declared + {step.kind};
      } else if step.kind in ARTIFACT_KINDS {
        declared := declared + {step.kind};
      } else if step.kind == "webhook.wait" {
        declared := declared + {"webhook_wait"};
      }
      DeclaredByOneMore(steps, i);
      i := i + 1;
    }
    assert steps[..|steps|] == steps;
  }

  class ToolExecutor {
    const env: Env
    const mode: Mode
    const declared: set<string>   // context["allowed_tools"]
    const approvals: set<Name>  // context["escalation_approvals"]
    const maxReplan: int
    var names: set<Name>          // the steps of the run that have a row by now
    var clock: nat
    var log: seq<Event>           // the attempt in progress
    var attempts: seq<seq<Event>> // finished attempts, all rows, oldest first
    var status: RowStatus
    var retryCount: int
    var output: string

    constructor (env: Env, mode: Mode, declared: set<string>, approvals: set<Name>, maxReplan: int)
      ensures this.env == env && this.mode == mode && this.declared == declared
      ensures this.approvals == approvals && this.maxReplan == maxReplan && attempts == []
    {
      this.env, this.mode, this.declared := env, mode, declared;
      this.approvals, this.maxReplan := approvals, maxReplan;
      names, clock, log, attempts := {}, 0, [], [];
      status, retryCount, output := RowRunning, 0, "";
    }

    function Current(): Setting
      reads this`names
    {
      Setting(env, mode, declared, approvals, maxReplan, names)
    }

    /** The events `es` have been added since `before`, one moment each. */
    predicate Added(before: seq<Event>, at: nat, es: seq<Event>)
      reads this`log, this`clock
    {
      log == before + es && clock == at + |es|
    }

    /** `r` is a verifier's escalation exactly when the log ends in one for a step that has a row and no
        approval; that is the step `id` unless a replan renamed it. */
    ghost predicate EscalatesRightly(r: Result<string>, events: seq<Event>, id: Name)
      reads this`names
    {
      && (r == Err(EscalationRequired(true)) <==> EscalatedUnapproved(events, approvals, names))
      && (r == Err(EscalationRequired(true)) && KeepsId(Current(), id) ==> EndsEscalated(events, id))
    }

    method Emit(e: Event)
      modifies this`log, this`clock
      ensures log == old(log) + [e] && clock == old(clock) + 1
      ensures Verifications(log) == Verifications(old(log)) + (if e.Verified? then 1 else 0)
      ensures Executions(log) == Executions(old(log)) + (if e.Executed? then 1 else 0)
      ensures Gated(log, declared, mode, approvals) <==>
                Gated(old(log), declared, mode, approvals) &&
                (e.Executed? ==> Cleared(old(log), e.tool, declared, mode, approvals))
    {
      LogGrows(log, e, declared, mode, approvals);
      log := log + [e];
      clock := clock + 1;
    }

    /** Ground the step, look its row up, and hold the tool to the declared set. */
    method Ground(step: PlanStep) returns (p: Result<string>)
      modifies this`log, this`clock
      ensures p == GroundOf(Current(), step, old(clock)).0
      ensures Added(old(log), old(clock), GroundOf(Current(), step, old(clock)).1)
      ensures forall tool :: p == Ok(tool) <==>
                && env.ground(old(clock)) == Returns(tool) && step.id in names
                && (tool in declared || (declared == {} && mode == Deterministic))
    {
      var enforce := declared != {} || mode == Agentic;
      var grounded := env.ground(clock);
      if grounded.Raises? {
        return Err(Raised(grounded.structural));
      }
      var tool := grounded.value;
      Emit(Grounded(tool));
      if enforce && tool !in declared {
        if step.id !in names {
          return Err(OtherError);
        }
        Emit(Denied(tool));
        return Err(PolicyViolation);
      }
      if step.id !in names {
        return Err(OtherError);
      }
      return Ok(tool);
    }

    /** Policy check, budget check and the verifier's verdict on a grounded tool. */
    method Check(step: PlanStep, tool: string) returns (p: Result<Verdict>)
      modifies this`log, this`clock
      ensures p == CheckOf(Current(), step, tool, old(clock)).0
      ensures Added(old(log), old(clock), CheckOf(Current(), step, tool, old(clock)).1)
      ensures forall verdict :: p == Ok(verdict) <==>
                && env.policyAllows(old(clock)) && env.withinBudget(old(clock) + 1)
                && env.verify(old(clock) + 2) == Returns(verdict)
    {
      var allowed := env.policyAllows(clock);
      Emit(PolicyChecked(tool, allowed));
      if !allowed {
        return Err(PolicyViolation);
      }
      var within := env.withinBudget(clock);
      Emit(BudgetChecked(within));
      if !within {
        return Err(PolicyViolation);
      }
      var verification := env.verify(clock);
      if verification.Raises? {
        return Err(Raised(verification.structural));
      }
      Emit(Verified(step.id, tool, verification.value));
      return Ok(verification.value);
    }

    /** From `before` to `after` no tool ran and the verifier was asked `asked` times. */
    predicate Quietly(before: seq<Event>, after: seq<Event>, asked: nat) {
      && Executions(after) == Executions(before)
      && Verifications(after) == Verifications(before) + asked
      && (Gated(before, declared, mode, approvals) ==> Gated(after, declared, mode, approvals))
    }

    /** The replanner's revision of a step, when another turn is allowed. */
    method Revise(attempt: nat) returns (revised: Result<PlanStep>)
      modifies this`log, this`clock
      ensures revised == ReviseOf(Current(), attempt, old(clock)).0
      ensures Added(old(log), old(clock), ReviseOf(Current(), attempt, old(clock)).1)
      ensures forall step :: revised == Ok(step) <==>
                && attempt < maxReplan && mode == Agentic && env.withinBudget(old(clock) + 1)
                && env.replan(old(clock)).Returns? && env.replan(old(clock)).value != []
                && env.replan(old(clock)).value[0] == step
    {
      if attempt >= maxReplan {
        return Err(ReplanRequired(Exhausted));
      }
      if mode == Deterministic {
        return Err(ReplanRequired(DeterministicMode));
      }
      var plan := env.replan(clock);
      if plan.Raises? {
        return Err(Raised(plan.structural));
      }
      if plan.value == [] {
        return Err(ReplanRequired(EmptyReplan));
      }
      Emit(Replanned);
      var within := env.withinBudget(clock);
      if !within {
        return Err(PolicyViolation);
      }
      return Ok(plan.value[0]);
    }

    /** One turn of the replan loop. */
    method TakeTurn(step: PlanStep, attempt: nat) returns (turn: Turn)
      modifies this`log, this`clock
      ensures turn == TurnOf(Current(), step, attempt, old(clock)).0
      ensures Added(old(log), old(clock), TurnOf(Current(), step, attempt, old(clock)).1)
    {
      var grounded := Ground(step);
      if grounded.Err? {
        return Leave(Err(grounded.failure));
      }
      var tool := grounded.value;
      var verdict := Check(step, tool);
      if verdict.Err? {
        return Leave(Err(verdict.failure));
      }
      match verdict.value {
        case Pass =>
          turn := Leave(Ok(tool));
        case Fail =>
          turn := Leave(Err(CritiqueFailure));
        case Escalate =>
          turn := Leave(if step.id in approvals then Ok(tool) else Err(EscalationRequired(true)));
        case Replan =>
          var revised := Revise(attempt);
          turn := if revised.Ok? then Again(revised.value) else Leave(Err(revised.failure));
      }
    }

    method TakeAnyTurn(step: PlanStep, attempt: nat, ghost turning: Turning) returns (turn: Turn, ghost es: seq<Event>)
      requires TurnsUnder(turning, Current())
      modifies this`log, this`clock
      ensures (turn, es) == turning(step, attempt, old(clock)) && Added(old(log), old(clock), es)
    {
      assert turning == TurningOf(Current());
      es := TurnOf(Current(), step, attempt, clock).1;
      turn := TakeTurn(step, attempt);
    }

    /** The replan loop, with at most `maxReplan` replans. */
    method TakeTurns(first: PlanStep, ghost turning: Turning) returns (r: Result<string>)
      requires log == [] && TurnsUnder(turning, Current())
      modifies this`log, this`clock
      ensures (r, log) == Turns(turning, maxReplan, first, 0, old(clock)) && clock == old(clock) + |log|
    {
      ghost var whole := Turns(turning, maxReplan, first, 0, clock);
      ghost var rest := whole;
      assert [] + rest.1 == rest.1;
      var step := first;
      var attempt := 0;
      while attempt < maxReplan + 1
        invariant 0 <= attempt && clock == old(clock) + |log|
        invariant rest == Turns(turning, maxReplan, step, attempt, clock) && whole == (rest.0, log + rest.1)
        decreases maxReplan + 1 - attempt
      {
        ghost var before, at, was := log, clock, rest;
        var turn, es := TakeAnyTurn(step, attempt, turning);
        rest := Unroll(turning, maxReplan, step, attempt, at, turn, es);
        StillWhole(whole, before, was, es, rest);
        if turn.Leave? {
          EndOfLog(log, rest.1);
          return turn.result;
        }
        step := turn.step;
        attempt := attempt + 1;
      }
      EndOfLog(log, rest.1);
      return Err(ReplanRequired(LoopExited));
    }

    /** What the replan loop comes to. */
    method GroundAndVerify(first: PlanStep) returns (r: Result<string>)
      requires log == []
      modifies this`log, this`clock
      ensures (r, log) == Loop(Current(), first, old(clock)) && clock == old(clock) + |log|
      ensures EndsRightly(Current(), r, log, first.id, Bound(maxReplan))
      ensures Truthful(env, old(clock), log) && OnlyLastPassed(approvals, log)
      ensures r.Err? ==> AttemptDecided(Current(), old(clock), log, r)
    {
      LoopIs(Current(), first, clock);
      LoopIsHonest(Current(), first, clock);
      LeftIsDecided(Current(), Loop(Current(), first, clock), clock);
      r := TakeTurns(first, TurningOf(Current()));
    }

    /** The budget check and the critic's verdict on a tool's result: only a PASS within the budget lets it
        through. */
    method Review(result: string) returns (r: Result<string>)
      modifies this`log, this`clock
      ensures Quietly(old(log), log, 0)
      ensures !env.withinBudget(old(clock)) ==>
                r == Err(PolicyViolation) && Added(old(log), old(clock), [BudgetChecked(false)])
      ensures env.withinBudget(old(clock)) && env.critique(old(clock) + 1).Raises? ==>
                && r == Err(if env.critique(old(clock) + 1).structural then Structural else OtherError)
                && Added(old(log), old(clock), [BudgetChecked(true)])
      ensures env.withinBudget(old(clock)) && env.critique(old(clock) + 1).Returns? ==>
                var verdict := env.critique(old(clock) + 1).value;
                && Added(old(log), old(clock), [BudgetChecked(true), Critiqued(verdict)])
                && r == match verdict
                        case Pass => Ok(result)
                        case Fail => Err(CritiqueFailure)
                        case Escalate => Err(EscalationRequired(false))
                        case Replan => Err(CritiqueFailure)
    {
      var within := env.withinBudget(clock);
      Emit(BudgetChecked(within));
      if !within {
        return Err(PolicyViolation);
      }
      var critique := env.critique(clock);
      if critique.Raises? {
        return Err(if critique.structural then Structural else OtherError);
      }
      Emit(Critiqued(critique.value));
      Basics.Reassociate(old(log), [BudgetChecked(true)], [Critiqued(critique.value)]);
      match critique.value {
        case Pass => return Ok(result);
        case Fail => return Err(CritiqueFailure);
        case Escalate => return Err(EscalationRequired(false));
        case Replan => return Err(CritiqueFailure);
      }
    }

    /** Run the tool that the log has just cleared. */
    method RunTool(tool: string) returns (r: Result<string>, ghost es: seq<Event>)
      requires Gated(log, declared, mode, approvals) && Cleared(log, tool, declared, mode, approvals)
      modifies this`log, this`clock
      ensures Added(old(log), old(clock), es) && RanRightly(env, old(clock), tool, r, es)
      ensures Gated(log, declared, mode, approvals) && Verifications(log) == Verifications(old(log))
      ensures Executions(log) == Executions(old(log)) + if env.transform(old(clock)) then 1 else 0
    {
      es := [];
      if !env.transform(clock) {
        return Err(OtherError), es;
      }
      var outcome := env.execute(clock);
      Emit(Executed(tool));
      es := [Executed(tool)];
      if outcome.Raises? {
        return Err(if outcome.structural then Structural else OtherError), es;
      }
      ghost var ran := log;
      r := Review(outcome.value);
      es := [Executed(tool)] + log[|ran|..];
      Basics.Reassociate(old(log), [Executed(tool)], log[|ran|..]);
    }

    /** The rest of an attempt that began at the moment `at` and whose tool `v` the log has just cleared. */
    method RunCleared(v: Result<string>, ghost at: nat) returns (r: Result<string>)
      requires clock == at + |log| && Truthful(env, at, log) && OnlyLastPassed(approvals, log)
      requires v.Ok? && LeavesRightly(Current(), v, log)
      requires Gated(log, declared, mode, approvals) && Executions(log) == 0
      modifies this`log, this`clock
      ensures AttemptDecided(Current(), at, log, r)
      ensures Gated(log, declared, mode, approvals) && Verifications(log) == Verifications(old(log))
      ensures Executions(log) <= 1 && (r.Ok? || r.failure.EscalationRequired? ==> Executions(log) == 1)
      ensures !EscalatedUnapproved(log, approvals, names)
      ensures r != Err(EscalationRequired(true)) && r != Err(RunSuspended)
    {
      ghost var es, ready, c := log, clock, Current();
      ghost var ran;
      r, ran := RunTool(v.value);
      RanIsDecided(c, at, ready, es, v, r, ran);
    }

    /** Ground, verify and run. */
    method CallTool(step: PlanStep) returns (r: Result<string>)
      requires log == []
      modifies this`log, this`clock
      ensures AttemptOk(log, declared, mode, approvals, maxReplan)
      ensures AttemptDecided(Current(), old(clock), log, r)
      ensures r.Ok? ==> Executions(log) == 1
      ensures r.Err? && r.failure.EscalationRequired? ==> (r.failure.preExecution <==> Executions(log) == 0)
      ensures r.Err? ==> !r.failure.RunSuspended?
      ensures EscalatesRightly(r, log, step.id)
    {
      var verified := GroundAndVerify(step);
      QuietAppend([], log, declared, mode, approvals);
      assert [] + log == log;
      if verified.Err? {
        return Err(verified.failure);
      }
      r := RunCleared(verified, old(clock));
    }

    /** One attempt of a tool step. */
    method ExecuteToolCall(step: PlanStep) returns (r: Result<string>)
      requires log == []
      modifies this`log, this`clock
      ensures AttemptOk(log, declared, mode, approvals, maxReplan)
      // Success is what the cleared tool returned, within the budget and passed by the critic; any other
      // end of the attempt is decided by its last event.
      ensures r.Ok? ==>
                && |log| >= 7 && log[|log| - 1] == Critiqued(Pass) && log[|log| - 2] == BudgetChecked(true)
                && log[|log| - 3].Executed?
                && Cleared(log[..|log| - 3], log[|log| - 3].tool, declared, mode, approvals)
                && env.execute(old(clock) + |log| - 3) == Returns(r.value)
      ensures log != [] && log[|log| - 1] in {Critiqued(Fail), Critiqued(Replan)} ==> r == Err(CritiqueFailure)
      ensures log != [] && log[|log| - 1] == Critiqued(Escalate) ==> r == Err(EscalationRequired(false))
      ensures AttemptDecided(Current(), old(clock), log, r)
      // Conversely, a tool that a verdict has cleared succeeds when it returns and the budget and the critic
      // let it.
      ensures forall k: nat :: k < |log| && Passed(approvals, log[k]) && Lets(env, old(clock) + k + 1) ==> r.Ok?
      ensures r.Ok? ==> Executions(log) == 1
      // Approving an escalation re-runs the step exactly when its tool has not run.
      ensures r.Err? && r.failure.EscalationRequired? ==> (r.failure.preExecution <==> Executions(log) == 0)
      ensures r.Err? ==> !r.failure.RunSuspended?
      ensures EscalatesRightly(r, log, step.id)
    {
      r := CallTool(step);
      CriticDecides(Current(), old(clock), log, r);
    }

    method ExecuteStepAction(step: PlanStep) returns (r: Result<string>)
      requires log == []
      modifies this`log, this`clock, this`status
      ensures AttemptOk(log, declared, mode, approvals, maxReplan)
      ensures step.kind != ToolStep ==> log == []
      ensures ActionDecided(Current(), step.kind, old(clock), log, r)
      ensures step.kind == ToolStep && r.Ok? ==> Executions(log) == 1
      ensures r.Err? && r.failure.EscalationRequired? ==> (r.failure.preExecution <==> Executions(log) == 0)
      ensures step.kind in {HumanApproval, WebhookWait} <==> r == Err(RunSuspended)
      ensures step.kind == Unknown ==> r == Err(Structural)
      ensures status == if r == Err(RunSuspended) then RowSuspended else old(status)
      ensures EscalatesRightly(r, log, step.id)
    {
      match step.kind {
        case ToolStep =>
          r := ExecuteToolCall(step);
        case Condition =>
          var value := env.evaluate(clock);
          clock := clock + 1;
          r := if value.Returns? then Ok(value.value) else Err(if value.structural then Structural else OtherError);
        case HumanApproval =>
          status := RowSuspended;
          r := Err(RunSuspended);
        case WebhookWait =>
          status := RowSuspended;
          r := Err(RunSuspended);
        case Unknown =>
          r := Err(Structural);
      }
    }

    /** One more attempt, which began at the moment `at`. */
    method Attempt(step: PlanStep) returns (r: Result<string>, ghost at: nat)
      modifies this`log, this`clock, this`status, this`attempts
      ensures |attempts| == |old(attempts)| + 1 && attempts == old(attempts) + [attempts[|old(attempts)|]]
      ensures AttemptOk(attempts[|old(attempts)|], declared, mode, approvals, maxReplan)
      ensures ActionDecided(Current(), step.kind, at, attempts[|old(attempts)|], r)
      ensures r.Err? && r.failure.EscalationRequired? ==>
                (r.failure.preExecution <==> Executions(attempts[|old(attempts)|]) == 0)
      ensures step.kind in {HumanApproval, WebhookWait} <==> r == Err(RunSuspended)
      ensures status == if r == Err(RunSuspended) then RowSuspended else old(status)
      ensures EscalatesRightly(r, attempts[|old(attempts)|], step.id)
    {
      log, clock := [], clock + 1;
      at := clock;
      r := ExecuteStepAction(step);
      attempts := attempts + [log];
    }

    /** The retry loop. The step's own attempts are those appended to `attempts`, `times` is when each began
        and `results` what it came to; `names` are the steps that have a row, this one included. */
    method ExecutePlanStep(step: PlanStep, names: set<Name>)
      returns (r: Result<string>, ghost times: seq<nat>, ghost results: seq<Result<string>>)
      modifies this
      ensures this.names == names && old(attempts) <= attempts
      ensures |attempts| - |old(attempts)| == |times| == |results|
      ensures |results| <= if step.maxRetries < 0 then 0 else step.maxRetries + 1
      ensures forall i :: |old(attempts)| <= i < |attempts| ==>
                AttemptOk(attempts[i], declared, mode, approvals, maxReplan)
      ensures forall i :: 0 <= i < |results| ==>
                ActionDecided(Current(), step.kind, times[i], attempts[|old(attempts)| + i], results[i])
      // Each attempt but the last one failed in a way that is worth another; the last one's result is the
      // step's, and it is a success, a failure that is not, or that of the last attempt allowed.
      ensures r == if results == [] then Err(OtherError) else results[|results| - 1]
      ensures forall i :: 0 <= i < |results| - 1 ==>
                results[i].Err? && (results[i].failure in {OtherError, CritiqueFailure} ||
                                    results[i].failure.ReplanRequired?)
      ensures |results| == (if step.maxRetries < 0 then 0 else step.maxRetries + 1)
           || (results != [] && (r.Ok? || r.failure in {PolicyViolation, Structural, RunSuspended}
                                 || r.failure.EscalationRequired?))
      ensures r.Err? && r.failure.EscalationRequired? ==>
                results != [] && (r.failure.preExecution <==> Executions(attempts[|attempts| - 1]) == 0)
      ensures r == Err(RunSuspended) <==> step.kind in {HumanApproval, WebhookWait} && step.maxRetries >= 0
      ensures results != [] ==> EscalatesRightly(r, attempts[|attempts| - 1], step.id)
      // The row: completed with the result, suspended at a gate, failed once the attempts are
      // used up, and otherwise left running for the caller to close.
      ensures status == (match r
                         case Ok(_) => RowCompleted
                         case Err(RunSuspended) => RowSuspended
                         case Err(PolicyViolation) => RowRunning
                         case Err(Structural) => RowRunning
                         case Err(EscalationRequired(_)) => RowRunning
                         case Err(_) => if step.maxRetries < 0 then RowRunning else RowFailed)
      ensures r.Ok? ==> output == r.value
      ensures status == RowFailed ==> retryCount == step.maxRetries
    {
      this.names := names;
      status, retryCount, output := RowRunning, 0, "";
      times, results := [], [];
      var maxAttempts := step.maxRetries + 1;
      var attempt := 0;
      while attempt < maxAttempts
        invariant 0 <= attempt && (maxAttempts >= 0 ==> attempt <= maxAttempts)
        invariant maxAttempts < 0 ==> attempt == 0
        invariant status == RowRunning && this.names == names
        invariant old(attempts) <= attempts && |attempts| == |old(attempts)| + attempt
        invariant |times| == |results| == attempt
        invariant forall i :: |old(attempts)| <= i < |attempts| ==>
                    AttemptOk(attempts[i], declared, mode, approvals, maxReplan)
        invariant forall i :: 0 <= i < |results| ==>
                    ActionDecided(Current(), step.kind, times[i], attempts[|old(attempts)| + i], results[i])
        invariant forall i :: 0 <= i < |results| ==>
                    results[i].Err? && (results[i].failure in {OtherError, CritiqueFailure} ||
                                        results[i].failure.ReplanRequired?)
        invariant attempt > 0 ==> attempt < maxAttempts && step.kind !in {HumanApproval, WebhookWait}
      {
        ghost var at;
        r, at := Attempt(step);
        times, results := times + [at], results + [r];
        if r.Ok? {
          status := RowCompleted;
          output := r.value;
          return;
        }
        if NotRetried(r.failure) {
          return;
        }
        retryCount := attempt;
        if attempt == maxAttempts - 1 {
          status := RowFailed;
          return;
        }
        attempt := attempt + 1;
      }
      return Err(OtherError), times, results;
    }
  }
}
