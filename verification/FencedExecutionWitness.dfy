// That the fence lets logins through: every plan that is in order, undisturbed, reaches the page and is concluded as
// its result says. So the bounds on what a fenced execution does are not vacuous.
module FencedExecutionWitness {
  import opened Wrappers
  import opened AttemptMachine
  import opened AttemptRow
  import opened MutationAuthority
  import opened FencedExecution
  import opened LoginPlan

  lemma RunSnoc(start: int, steps: seq<Step>, step: Step)
    ensures Run(start, steps + [step]) == Next(Run(start, steps), step)
  {
  }

  /** The row under lease 1 in a phase. */
  function LeasedRow(id: string, token: string, phase: Phase, ms: int): Row {
    Fresh(id).(phase := phase, ownerToken := Some(token), generation := 1, leaseExpiresAt := Some(ms))
  }

  /** A page call or a heartbeat that goes through the gate with its reply arriving, up to the raw call. */
  function Round(step: LocalStep): seq<Step> {
    [Local(1, step), Local(1, StartWork), ExecuteSql(1), Local(1, Receive)]
  }

  lemma LeaseBegins(id: string, token: string, ms: int)
    requires Nonblank(id) && Nonblank(token) && ms > 0
    ensures Run(0, [Create(id), Step.Lease(id, token, ms, true)])
            == System(Some(LeasedRow(id, token, NoInteraction, ms)), 0, map[1 := NewWorker(Owner(id, token, 1), ms)],
                [])
  {
    RunSnoc(0, [], Create(id));
    RunSnoc(0, [Create(id)], Step.Lease(id, token, ms, true));
    assert [] + [Create(id)] == [Create(id)];
    assert [Create(id)] + [Step.Lease(id, token, ms, true)] == [Create(id), Step.Lease(id, token, ms, true)];
  }

  /** A worker that has done all it was asked to, in a phase. */
  function PlanWorker(id: string, token: string, ms: int, p: HandlePhase): Worker {
    NewWorker(Owner(id, token, 1), ms).(
      handle := p, runner := p, filled := p != Leased, started := p != Leased, clicks := ClicksAt(p))
  }

  /** The call a page call or a heartbeat asks for in a phase. */
  function CallFor(p: HandlePhase, step: LocalStep): Call {
    if step == PageCall(ClickOp) then BarrierCall
    else if step == PageCall(FillOp) && p == Leased then BeginCall else RenewCall
  }

  function PageFor(step: LocalStep): Option<PageOp> { if step.PageCall? then Some(step.op) else None }

  function After(p: HandlePhase, call: Call): HandlePhase {
    if call.BeginCall? then InteractionStarted else if call.BarrierCall? then SubmitBarrierRecorded else p
  }

  /** What may be asked for in a phase without being refused. */
  predicate InOrder(p: HandlePhase, step: LocalStep) {
    && p != Consumed && (step.PageCall? || step.Heartbeat?)
    && (step == PageCall(ClickOp) ==> p == InteractionStarted)
  }

  function Queued(w: Worker, step: LocalStep): Worker {
    w.(gate := [Guarded(CallFor(w.handle, step), PageFor(step))])
  }

  function Sent(w: Worker, step: LocalStep): Worker {
    Queued(w, step).(pending := true, wire := Some(StatementFor(CallFor(w.handle, step), w.owner, w.leaseMs)))
  }

  /** The reply that is on its way once the statement has applied. */
  function Answered(w: Worker, step: LocalStep, row: Row): Worker
    requires Parse(row).Some?
  {
    Queued(w, step).(pending := true, reply := Some(Applied(Parse(row).value)))
  }

  /** The operation has been granted, and the raw call is still to be made. */
  function Granted(id: string, token: string, ms: int, p: HandlePhase, step: LocalStep): Worker {
    var q := After(p, CallFor(p, step));
    Grant(PlanWorker(id, token, ms, p).(handle := q, runner := q), PageFor(step))
  }

  /** Every statement of the round applies. */
  lemma StatementApplies(id: string, token: string, ms: int, p: HandlePhase, step: LocalStep)
    requires Nonblank(id) && Nonblank(token) && ms > 0 && InOrder(p, step)
    ensures var w := PlanWorker(id, token, ms, p);
            var row := LeasedRow(id, token, Believed(After(p, CallFor(p, step))), ms);
            var slot := Some(LeasedRow(id, token, Believed(p), ms));
            && Parse(row).Some?
            && Exec(Sent(w, step).wire.value, slot, 0) == Some(row)
            && AfterSql(Sent(w, step), slot, 0) == Answered(w, step, row)
  {
  }

  /** So the operation is granted. */
  lemma WorkerRound(id: string, token: string, ms: int, p: HandlePhase, step: LocalStep)
    requires Nonblank(id) && Nonblank(token) && ms > 0 && InOrder(p, step)
    ensures var w := PlanWorker(id, token, ms, p);
            var row := LeasedRow(id, token, Believed(After(p, CallFor(p, step))), ms);
            && Parse(row).Some?
            && LocalNext(w, step) == Queued(w, step)
            && OnStartWork(Queued(w, step)) == Sent(w, step)
            && OnReceive(Answered(w, step, row)) == Granted(id, token, ms, p, step)
  {
    StatementApplies(id, token, ms, p, step);
  }

  /** A system whose only worker ever granted a lease has generation 1. */
  function One(slot: Option<Row>, w: Worker, page: seq<PageEvent>): System { System(slot, 0, map[1 := w], page) }

  lemma LocalOne(slot: Option<Row>, w: Worker, page: seq<PageEvent>, step: LocalStep)
    ensures Next(One(slot, w, page), Local(1, step)) == One(slot, LocalNext(w, step), page)
  {
  }

  lemma SqlOne(slot: Option<Row>, w: Worker, page: seq<PageEvent>)
    requires w.wire.Some?
    ensures Next(One(slot, w, page), ExecuteSql(1)) == One(Exec(w.wire.value, slot, 0), AfterSql(w, slot, 0), page)
  {
  }

  lemma FillOne(slot: Option<Row>, w: Worker, page: seq<PageEvent>)
    requires w.fillsGranted == 1 && !w.aborted
    ensures Next(One(slot, w, page), RawFill(1)) == One(slot, w.(fillsGranted := 0, filled := true), page + [Filled(1)])
  {
  }

  /** The first half of a round: the call queues, its statement is sent. */
  lemma RoundSends(steps: seq<Step>, id: string, token: string, ms: int, p: HandlePhase, page: seq<PageEvent>,
      step: LocalStep)
    requires Nonblank(id) && Nonblank(token) && ms > 0 && InOrder(p, step)
    requires Run(0, steps) == One(Some(LeasedRow(id, token, Believed(p), ms)), PlanWorker(id, token, ms, p), page)
    ensures Run(0, steps + [Local(1, step)] + [Local(1, StartWork)])
            == One(Some(LeasedRow(id, token, Believed(p), ms)), Sent(PlanWorker(id, token, ms, p), step), page)
  {
    var slot, w := Some(LeasedRow(id, token, Believed(p), ms)), PlanWorker(id, token, ms, p);
    WorkerRound(id, token, ms, p, step);
    RunSnoc(0, steps, Local(1, step));
    LocalOne(slot, w, page, step);
    RunSnoc(0, steps + [Local(1, step)], Local(1, StartWork));
    LocalOne(slot, Queued(w, step), page, StartWork);
  }

  lemma RoundGrants(steps: seq<Step>, id: string, token: string, ms: int, p: HandlePhase, page: seq<PageEvent>,
      step: LocalStep)
    requires Nonblank(id) && Nonblank(token) && ms > 0 && InOrder(p, step)
    requires Run(0, steps) == One(Some(LeasedRow(id, token, Believed(p), ms)), PlanWorker(id, token, ms, p), page)
    ensures Run(0, steps + Round(step))
            == One(Some(LeasedRow(id, token, Believed(After(p, CallFor(p, step))), ms)),
                   Granted(id, token, ms, p, step), page)
  {
    var slot, w := Some(LeasedRow(id, token, Believed(p), ms)), PlanWorker(id, token, ms, p);
    var sent := steps + [Local(1, step)] + [Local(1, StartWork)];
    RoundSends(steps, id, token, ms, p, page, step);
    WorkerRound(id, token, ms, p, step);
    StatementApplies(id, token, ms, p, step);
    RunSnoc(0, sent, ExecuteSql(1));
    SqlOne(slot, Sent(w, step), page);
    RunSnoc(0, sent + [ExecuteSql(1)], Local(1, Receive));
    LocalOne(Exec(Sent(w, step).wire.value, slot, 0), AfterSql(Sent(w, step), slot, 0), page, Receive);
    assert steps + Round(step) == sent + [ExecuteSql(1)] + [Local(1, Receive)];
  }

  lemma FillSettles(steps: seq<Step>, slot: Option<Row>, w: Worker, page: seq<PageEvent>)
    requires Run(0, steps) == One(slot, w, page) && w.fillsGranted == 1 && !w.aborted
    ensures Run(0, steps + [RawFill(1), Local(1, RawSettles(true))])
            == One(slot, w.(fillsGranted := 0, filled := true, started := true), page + [Filled(1)])
  {
    RunSnoc(0, steps, RawFill(1));
    FillOne(slot, w, page);
    RunSnoc(0, steps + [RawFill(1)], Local(1, RawSettles(true)));
    LocalOne(slot, w.(fillsGranted := 0, filled := true), page + [Filled(1)], RawSettles(true));
    assert steps + [RawFill(1), Local(1, RawSettles(true))] == steps + [RawFill(1)] + [Local(1, RawSettles(true))];
  }

  lemma ClickSettles(steps: seq<Step>, slot: Option<Row>, w: Worker, page: seq<PageEvent>)
    requires Run(0, steps) == One(slot, w, page) && w.clicksGranted == 1 && !w.aborted && slot.Some?
    ensures Run(0, steps + [RawClick(1)])
            == One(slot, w.(clicksGranted := 0, clicks := w.clicks + 1), page + [Clicked(1, slot.value.phase)])
  {
    RunSnoc(0, steps, RawClick(1));
  }

  // ---- how an undisturbed run concludes ---------------------------------------------------------------------

  /** The strategy has returned; the decision goes through the gate, and both statements of a retry get their turn. */
  function Conclusion(result: ExecutionResult): seq<Step> {
    [Local(1, Finish(result)), Local(1, Decide), Local(1, StartWork), ExecuteSql(1), ExecuteSql(1),
     Local(1, Receive)]
  }

  /** An idle worker that holds the attempt at the phase its handle and its runner are in. */
  predicate Concludable(slot: Option<Row>, w: Worker) {
    && slot.Some? && Sound(slot.value) && Owns(slot.value, w.owner, 0)
    && w.handle == w.runner != Consumed && slot.value.phase == Believed(w.runner)
    && w.stage == Executing && !w.sticky && w.gate == [] && !w.pending && w.wire.None? && w.reply.None?
  }

  /** What the run reports, and what it leaves in the row. */
  function OutcomeFor(call: Call, retries: int): Outcome {
    match call
    case AuthenticatedCall => RanAuthenticated
    case RetryCall => if retries < 2 then RanRetryClaimed else RanRetryExhausted
    case _ => RanFailed
  }

  function RecordFor(call: Call, o: Owner, phase: Phase, retries: int): Record {
    match call
    case AuthenticatedCall => AuthenticatedRecord(o.attemptId, phase, retries, o.generation + 1, 0)
    case FailedCall(f) => FailedRecord(o.attemptId, phase, retries, o.generation + 1, f, 0)
    case _ =>
      if retries < 2 then ActiveRecord(o.attemptId, NoInteraction, retries + 1, o.generation + 1, None)
      else FailedRecord(o.attemptId, NoInteraction, 2, o.generation + 1,
                        FailurePair(TransientPreInteraction, TemporaryAuthenticationProblem), 0)
  }

  function Deciding(w: Worker, result: ExecutionResult): Worker {
    w.(stage := Finalizing, gate := [Final(Decision(result, w.runner))])
  }

  function Asking(w: Worker, result: ExecutionResult): Worker {
    var call := Decision(result, w.runner);
    Deciding(w, result).(handle := PhaseOnSend(w.handle, call), pending := true,
                         wire := Some(StatementFor(call, w.owner, w.leaseMs)))
  }

  lemma DecisionQueues(slot: Option<Row>, w: Worker, result: ExecutionResult)
    requires Concludable(slot, w)
    ensures LocalNext(w, Finish(result)) == w.(stage := Draining(result))
    ensures LocalNext(w.(stage := Draining(result)), Decide) == Deciding(w, result)
  {
  }

  lemma DecisionStarts(slot: Option<Row>, w: Worker, result: ExecutionResult)
    requires Concludable(slot, w)
    ensures LocalNext(Deciding(w, result), StartWork) == Asking(w, result)
  {
    DecisionFitsThePhase(result, w.runner);
    assert Permits(w.handle, Decision(result, w.runner));
  }

  lemma DecisionIsSent(steps: seq<Step>, slot: Option<Row>, w: Worker, page: seq<PageEvent>, result: ExecutionResult)
    requires Run(0, steps) == One(slot, w, page) && Concludable(slot, w)
    ensures Run(0, steps + Conclusion(result)[..3]) == One(slot, Asking(w, result), page)
  {
    var c := Conclusion(result);
    var one, two := w.(stage := Draining(result)), Deciding(w, result);
    DecisionQueues(slot, w, result);
    DecisionStarts(slot, w, result);
    RunSnoc(0, steps, c[0]);
    LocalOne(slot, w, page, Finish(result));
    RunSnoc(0, steps + [c[0]], c[1]);
    LocalOne(slot, one, page, Decide);
    RunSnoc(0, steps + [c[0]] + [c[1]], c[2]);
    LocalOne(slot, two, page, StartWork);
    assert steps + c[..3] == steps + [c[0]] + [c[1]] + [c[2]];
  }

  /** Once its statement has executed, a retry's second one included, the reply that is on its way. */
  function Settled(w: Worker, result: ExecutionResult, retries: int): Worker
    requires w.runner != Consumed
  {
    var call := Decision(result, w.runner);
    Asking(w, result).(wire := None,
                       reply := Some(if call.RetryCall? && retries >= 2 then Exhausted
                                     else Applied(RecordFor(call, w.owner, Believed(w.runner), retries))))
  }

  /** The row after the decision took effect. */
  function RowAfter(slot: Option<Row>, w: Worker, result: ExecutionResult): Option<Row>
    requires slot.Some?
  {
    var call := Decision(result, w.runner);
    if call.RetryCall? && slot.value.retryCount >= 2 then Exec(ExhaustRetries(w.owner), slot, 0)
    else Exec(StatementFor(call, w.owner, w.leaseMs), slot, 0)
  }

  lemma HeldRow(slot: Option<Row>, w: Worker)
    requires Concludable(slot, w)
    ensures Parse(slot.value).Some? && HeldBy(Parse(slot.value).value, w.owner, 0)
    ensures Parse(slot.value).value.phase == Believed(w.runner)
    ensures Parse(slot.value).value.retryCount == slot.value.retryCount <= 2
  {
  }

  /** The decision's own statement applies, but for a retry with none left. */
  lemma StatementAppliesExactly(slot: Option<Row>, w: Worker, result: ExecutionResult)
    requires Concludable(slot, w)
    ensures var call := Decision(result, w.runner);
            var stmt := StatementFor(call, w.owner, w.leaseMs);
            && (Applies(stmt, slot, 0) <==> !(call.RetryCall? && slot.value.retryCount >= 2))
            && (Applies(stmt, slot, 0) ==>
                  RecordOf(Exec(stmt, slot, 0))
                  == Some(RecordFor(call, w.owner, Believed(w.runner), slot.value.retryCount)))
            && (stmt.ClaimRetry? <==> call.RetryCall?) && !stmt.ExhaustRetries?
  {
    var call := Decision(result, w.runner);
    var stmt := StatementFor(call, w.owner, w.leaseMs);
    DecisionFitsThePhase(result, w.runner);
    if call.FailedCall? { ClassifiableExactly(Believed(w.runner), call.failure); }
    HeldRow(slot, w);
    AppliesExactly(stmt, slot.value, 0);
    if Applies(stmt, slot, 0) { LeavesExactly(stmt, slot.value, 0); }
  }

  lemma FirstStatement(slot: Option<Row>, w: Worker, result: ExecutionResult)
    requires Concludable(slot, w)
    ensures var call, a := Decision(result, w.runner), Asking(w, result);
            if call.RetryCall? && slot.value.retryCount >= 2
            then && Exec(a.wire.value, slot, 0) == slot
                 && AfterSql(a, slot, 0) == a.(wire := Some(ExhaustRetries(w.owner)))
            else && Exec(a.wire.value, slot, 0) == RowAfter(slot, w, result)
                 && AfterSql(a, slot, 0) == Settled(w, result, slot.value.retryCount)
  {
    StatementAppliesExactly(slot, w, result);
    var a := Asking(w, result);
    AfterSqlExactly(a, slot);
  }

  /** What a worker sees of a statement of its own that is neither lost nor the second of a retry. */
  lemma AfterSqlExactly(a: Worker, slot: Option<Row>)
    requires a.wire.Some? && a.pending && !a.wire.value.ExhaustRetries?
    ensures !Applies(a.wire.value, slot, 0) && a.wire.value.ClaimRetry? ==>
              AfterSql(a, slot, 0) == a.(wire := Some(ExhaustRetries(a.owner)))
    ensures Applies(a.wire.value, slot, 0) && RecordOf(Exec(a.wire.value, slot, 0)).Some? ==>
              AfterSql(a, slot, 0)
              == a.(wire := None, reply := Some(Applied(RecordOf(Exec(a.wire.value, slot, 0)).value)))
  {
  }

  lemma SecondStatement(slot: Option<Row>, w: Worker, result: ExecutionResult)
    requires Concludable(slot, w) && Decision(result, w.runner).RetryCall? && slot.value.retryCount >= 2
    ensures var b := Asking(w, result).(wire := Some(ExhaustRetries(w.owner)));
            && Exec(b.wire.value, slot, 0) == RowAfter(slot, w, result)
            && AfterSql(b, slot, 0) == Settled(w, result, slot.value.retryCount)
  {
    DecisionFitsThePhase(result, w.runner);
    HeldRow(slot, w);
    AppliesExactly(ExhaustRetries(w.owner), slot.value, 0);
    LeavesExactly(ExhaustRetries(w.owner), slot.value, 0);
  }

  lemma BothStatements(steps: seq<Step>, slot: Option<Row>, w: Worker, page: seq<PageEvent>, result: ExecutionResult)
    requires Concludable(slot, w) && Run(0, steps) == One(slot, Asking(w, result), page)
    ensures Run(0, steps + [ExecuteSql(1)] + [ExecuteSql(1)])
            == One(RowAfter(slot, w, result), Settled(w, result, slot.value.retryCount), page)
  {
    RunSnoc(0, steps, ExecuteSql(1));
    SqlOne(slot, Asking(w, result), page);
    FirstStatement(slot, w, result);
    RunSnoc(0, steps + [ExecuteSql(1)], ExecuteSql(1));
    if Decision(result, w.runner).RetryCall? && slot.value.retryCount >= 2 {
      SqlOne(slot, Asking(w, result).(wire := Some(ExhaustRetries(w.owner))), page);
      SecondStatement(slot, w, result);
    }
  }

  /** The reply confirms the decision, whatever it was. */
  lemma ReplyConcludes(slot: Option<Row>, w: Worker, result: ExecutionResult)
    requires Concludable(slot, w)
    ensures LocalNext(Settled(w, result, slot.value.retryCount), Receive)
            == w.(stage := Done(OutcomeFor(Decision(result, w.runner), slot.value.retryCount)), handle := Consumed)
  {
    DecisionFitsThePhase(result, w.runner);
    HeldRow(slot, w);
  }

  /** The row is read as the decision says. */
  lemma RowConcludes(slot: Option<Row>, w: Worker, result: ExecutionResult)
    requires Concludable(slot, w)
    ensures RecordOf(RowAfter(slot, w, result))
            == Some(RecordFor(Decision(result, w.runner), w.owner, Believed(w.runner), slot.value.retryCount))
  {
    var call := Decision(result, w.runner);
    var stmt := if call.RetryCall? && slot.value.retryCount >= 2 then ExhaustRetries(w.owner)
                else StatementFor(call, w.owner, w.leaseMs);
    DecisionFitsThePhase(result, w.runner);
    if call.FailedCall? { ClassifiableExactly(Believed(w.runner), call.failure); }
    HeldRow(slot, w);
    AppliesExactly(stmt, slot.value, 0);
    LeavesExactly(stmt, slot.value, 0);
  }

  /**
   * A run that nothing disturbs any more reports its decision and leaves it in the row: "authenticated" for a login
   * that succeeded after a recorded submit, a retry claimed or exhausted for one that never began, the failure
   * otherwise.
   */
  lemma RunConcludes(steps: seq<Step>, slot: Option<Row>, w: Worker, page: seq<PageEvent>, result: ExecutionResult)
    requires Run(0, steps) == One(slot, w, page) && Concludable(slot, w)
    ensures var s, call := Run(0, steps + Conclusion(result)), Decision(result, w.runner);
            && 1 in s.workers && s.workers[1].stage == Done(OutcomeFor(call, slot.value.retryCount))
            && RecordOf(s.slot) == Some(RecordFor(call, w.owner, Believed(w.runner), slot.value.retryCount))
            && s.page == page
  {
    var c := Conclusion(result);
    DecisionIsSent(steps, slot, w, page, result);
    BothStatements(steps + c[..3], slot, w, page, result);
    RunSnoc(0, steps + c[..3] + [c[3]] + [c[4]], c[5]);
    LocalOne(RowAfter(slot, w, result), Settled(w, result, slot.value.retryCount), page, Receive);
    ReplyConcludes(slot, w, result);
    RowConcludes(slot, w, result);
    assert steps + c == steps + c[..3] + [c[3]] + [c[4]] + [c[5]];
  }

  // ---- every plan that is in order --------------------------------------------------------------------------

  /** What one act of a plan is, undisturbed, in the system; an empty fill is a clearing that needs no fence. */
  function ActSteps(act: Act): seq<Step> {
    match act
    case HeartbeatAct => Round(Heartbeat)
    case FillAct(value) =>
      if value == "" then [RawClear(1)] else Round(PageCall(FillOp)) + [RawFill(1), Local(1, RawSettles(true))]
    case ClickAct => Round(PageCall(ClickOp)) + [RawClick(1)]
  }

  /** What the page sees of an act. */
  function ActShows(act: Act): seq<PageEvent> {
    match act
    case HeartbeatAct => []
    case FillAct(value) => if value == "" then [Cleared(1)] else [Filled(1)]
    case ClickAct => [Clicked(1, SubmitMayHaveBeenDispatched)]
  }

  function PlanSteps(id: string, token: string, ms: int, plan: seq<Act>): seq<Step> {
    if plan == [] then [Create(id), Step.Lease(id, token, ms, true)]
    else PlanSteps(id, token, ms, plan[..|plan| - 1]) + ActSteps(plan[|plan| - 1])
  }

  function PlanShows(plan: seq<Act>): seq<PageEvent> {
    if plan == [] then [] else PlanShows(plan[..|plan| - 1]) + ActShows(plan[|plan| - 1])
  }

  /** The system after a plan that led to phase `p`. */
  function PlanDone(id: string, token: string, ms: int, p: HandlePhase, page: seq<PageEvent>): System
    requires p != Consumed
  {
    One(Some(LeasedRow(id, token, Believed(p), ms)), PlanWorker(id, token, ms, p), page)
  }

  lemma FillGoesThrough(steps: seq<Step>, id: string, token: string, ms: int, p: HandlePhase, page: seq<PageEvent>)
    requires Nonblank(id) && Nonblank(token) && ms > 0 && p != Consumed
    requires Run(0, steps) == PlanDone(id, token, ms, p, page)
    ensures Run(0, steps + Round(PageCall(FillOp)) + [RawFill(1), Local(1, RawSettles(true))])
            == PlanDone(id, token, ms, if p == Leased then InteractionStarted else p, page + [Filled(1)])
  {
    var step := PageCall(FillOp);
    RoundGrants(steps, id, token, ms, p, page, step);
    FillSettles(steps + Round(step), Some(LeasedRow(id, token, Believed(After(p, CallFor(p, step))), ms)),
                Granted(id, token, ms, p, step), page);
  }

  lemma ClickGoesThrough(steps: seq<Step>, id: string, token: string, ms: int, page: seq<PageEvent>)
    requires Nonblank(id) && Nonblank(token) && ms > 0
    requires Run(0, steps) == PlanDone(id, token, ms, InteractionStarted, page)
    ensures Run(0, steps + Round(PageCall(ClickOp)) + [RawClick(1)])
            == PlanDone(id, token, ms, SubmitBarrierRecorded, page + [Clicked(1, SubmitMayHaveBeenDispatched)])
  {
    var p, step := InteractionStarted, PageCall(ClickOp);
    RoundGrants(steps, id, token, ms, p, page, step);
    ClickSettles(steps + Round(step), Some(LeasedRow(id, token, SubmitMayHaveBeenDispatched, ms)),
                 Granted(id, token, ms, p, step), page);
  }

  lemma ClearingGoesThrough(steps: seq<Step>, id: string, token: string, ms: int, p: HandlePhase, page: seq<PageEvent>)
    requires p != Consumed && Run(0, steps) == PlanDone(id, token, ms, p, page)
    ensures Run(0, steps + [RawClear(1)]) == PlanDone(id, token, ms, p, page + [Cleared(1)])
  {
    RunSnoc(0, steps, RawClear(1));
  }

  lemma ActGoesThrough(steps: seq<Step>, id: string, token: string, ms: int, p: HandlePhase, page: seq<PageEvent>,
      act: Act)
    requires Nonblank(id) && Nonblank(token) && ms > 0 && p != Consumed
    requires act.ClickAct? ==> p == InteractionStarted
    requires Run(0, steps) == PlanDone(id, token, ms, p, page)
    ensures var q := if RealFill(act) && p == Leased then InteractionStarted
                     else if act.ClickAct? then SubmitBarrierRecorded else p;
            Run(0, steps + ActSteps(act)) == PlanDone(id, token, ms, q, page + ActShows(act))
  {
    match act
    case HeartbeatAct =>
      RoundGrants(steps, id, token, ms, p, page, Heartbeat);
      assert page + ActShows(act) == page;
    case FillAct(value) =>
      if value == "" {
        ClearingGoesThrough(steps, id, token, ms, p, page);
      } else {
        FillGoesThrough(steps, id, token, ms, p, page);
        assert steps + ActSteps(act)
               == steps + Round(PageCall(FillOp)) + [RawFill(1), Local(1, RawSettles(true))];
      }
    case ClickAct =>
      ClickGoesThrough(steps, id, token, ms, page);
      assert steps + ActSteps(act) == steps + Round(PageCall(ClickOp)) + [RawClick(1)];
  }

  /** The fence lets every plan through that is in order: each fill and each click reaches the page, in their order. */
  lemma {:induction false} PlanGoesThrough(id: string, token: string, ms: int, plan: seq<Act>)
    requires Nonblank(id) && Nonblank(token) && ms > 0 && Reached(plan).Some?
    ensures Reached(plan).value != Consumed
    ensures Run(0, PlanSteps(id, token, ms, plan))
            == PlanDone(id, token, ms, Reached(plan).value, PlanShows(plan))
  {
    ReachedExactly(plan);
    if plan == [] {
      LeaseBegins(id, token, ms);
    } else {
      var before, act := plan[..|plan| - 1], plan[|plan| - 1];
      PlanGoesThrough(id, token, ms, before);
      ActGoesThrough(PlanSteps(id, token, ms, before), id, token, ms, Reached(before).value, PlanShows(before), act);
    }
  }

  lemma PlanIsConcludable(id: string, token: string, ms: int, p: HandlePhase)
    requires Nonblank(id) && Nonblank(token) && ms > 0 && p != Consumed
    ensures Concludable(Some(LeasedRow(id, token, Believed(p), ms)), PlanWorker(id, token, ms, p))
  {
  }

  /**
   * An undisturbed login, whatever its plan and its result: what it did is on the page, and the attempt and the report
   * are what the decision on the phase it reached says.
   */
  lemma ALoginGoesThrough(id: string, token: string, ms: int, plan: seq<Act>, result: ExecutionResult)
    requires Nonblank(id) && Nonblank(token) && ms > 0 && Reached(plan).Some? && Reached(plan).value != Consumed
    ensures var s := Run(0, PlanSteps(id, token, ms, plan) + Conclusion(result));
            var p := Reached(plan).value;
            && s.page == PlanShows(plan)
            && 1 in s.workers && s.workers[1].stage == Done(OutcomeFor(Decision(result, p), 0))
            && RecordOf(s.slot) == Some(RecordFor(Decision(result, p), Owner(id, token, 1), Believed(p), 0))
  {
    var p := Reached(plan).value;
    PlanGoesThrough(id, token, ms, plan);
    PlanIsConcludable(id, token, ms, p);
    RunConcludes(PlanSteps(id, token, ms, plan), Some(LeasedRow(id, token, Believed(p), ms)),
                 PlanWorker(id, token, ms, p), PlanShows(plan), result);
  }
}
