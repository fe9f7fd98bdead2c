// Every interleaving of workers that execute a bank login behind the durable fence.
//
// The state is one attempt row, the database clock, every worker that was ever granted a lease, and the trace of
// raw page mutations. A step is one thing that can happen next anywhere: time passes, a statement executes, a
// reply arrives or is lost, a strategy calls the fenced page, a heartbeat fires, a raw page call is issued.
// A crash is a worker that takes no further step; a statement already sent may still execute.
module FencedExecution {
  import opened Wrappers
  import opened AttemptMachine
  import opened AttemptRow
  import opened MutationAuthority

  datatype ExecutionResult =
    | Succeeded | TransientUnavailable | Cancelled | Blocked
    | Rejected(cause: RejectionCause) | Unusable

  datatype RejectionCause = ProtectedOrMfaRejection | IncompatibleFlowRejection | StructuralRejection | UnknownRejection

  datatype PageOp = FillOp | ClickOp

  /** Work queued on a runner's gate: a guarded call, perhaps on behalf of a page operation, or the final decision. */
  datatype GateWork = Guarded(call: Call, page: Option<PageOp>) | Final(call: Call)

  datatype Outcome = RanAuthenticated | RanRetryClaimed | RanRetryExhausted | RanFailed | RanUnresolved

  datatype Stage = Executing | Draining(result: ExecutionResult) | Finalizing | Done(outcome: Outcome)

  /** One runner invocation with the handle it claimed and the fenced page it gave its strategy. */
  datatype Worker = Worker(
    owner: Owner, leaseMs: int,
    // claimed authority
    handle: HandlePhase, pending: bool,
    // the connection: a statement sent but not executed, and a reply not yet received
    wire: Option<Statement>, reply: Option<Reply>,
    // runner
    runner: HandlePhase, sticky: bool, stage: Stage, gate: seq<GateWork>,
    // fenced page
    aborted: bool, blocked: bool, started: bool,
    fillsGranted: nat, clicksGranted: nat, filled: bool, clicks: nat)

  /** A raw page mutation, by the generation of the lease it was made under. */
  datatype PageEvent = Filled(g: int) | Clicked(g: int, recorded: Phase) | Cleared(g: int)

  datatype System = System(slot: Option<Row>, now: int, workers: map<int, Worker>, page: seq<PageEvent>)

  /** What one worker can do without touching the row or the page. */
  datatype LocalStep =
    | PageCall(op: PageOp)
    | Heartbeat
    | StartWork
    | Receive
    | LoseReply
    | RawSettles(ok: bool)
    | Abort
    | Finish(result: ExecutionResult)
    | StopThrows
    | Decide

  datatype Step =
    | Elapse(ms: nat)
    | Create(attemptId: string)
    | Lease(attemptId: string, token: string, leaseMs: int, delivered: bool)
    | Reconcile(statement: Statement)
    | Observe(owner: Owner)
    | Local(g: int, step: LocalStep)
    | ExecuteSql(g: int)
    | RawFill(g: int)
    | RawClick(g: int)
    | RawClear(g: int)

  // ---- the runner's decision --------------------------------------------------------------------------------

  function DefaultFailure(runner: HandlePhase): FailurePair {
    if runner == Leased then FailurePair(UnclassifiedFailure, AuthenticationAttemptRequiresReview)
    else FailurePair(InteractionOutcomeUncertain, AuthenticationAttemptRequiresReview)
  }

  function Decision(result: ExecutionResult, runner: HandlePhase): Call {
    if result.Succeeded? && runner == SubmitBarrierRecorded then AuthenticatedCall
    else if (result.TransientUnavailable? || result.Cancelled?) && runner == Leased then RetryCall
    else
      match result
      case Rejected(ProtectedOrMfaRejection) =>
        FailedCall(FailurePair(ProtectedOrMfa, ProtectedAuthenticationStepDetected))
      case Rejected(IncompatibleFlowRejection) =>
        FailedCall(FailurePair(IncompatibleFlow, BankLoginConfigurationRequiresReview))
      case Rejected(StructuralRejection) =>
        FailedCall(FailurePair(StructuralConfiguration, BankLoginConfigurationRequiresReview))
      case _ => FailedCall(DefaultFailure(runner))
  }

  /**
   * What a run decides, exactly: success for a login that succeeded after a recorded submit, a retry for one that never
   * began, and otherwise the failure that the pure machine produces at the phase the runner has reached - from the
   * cause that a rejection names, or from the one that fits an outcome nobody can name.
   */
  lemma DecisionFitsThePhase(result: ExecutionResult, runner: HandlePhase)
    requires runner != Consumed
    ensures Decision(result, runner) == AuthenticatedCall <==> result == Succeeded && runner == SubmitBarrierRecorded
    ensures Decision(result, runner) == RetryCall <==> result in {TransientUnavailable, Cancelled} && runner == Leased
    ensures Decision(result, runner) in {AuthenticatedCall, RetryCall} || Decision(result, runner).FailedCall?
    ensures Decision(result, runner).FailedCall? ==>
              var cause := match result
                           case Rejected(ProtectedOrMfaRejection) => ProtectedOrMfaDetected
                           case Rejected(IncompatibleFlowRejection) => IncompatibleFlowDetected
                           case Rejected(StructuralRejection) => StructuralConfigurationError
                           case _ => if runner == Leased then UnknownFailure else TransientInfrastructure;
              && Decision(result, runner).failure == Classify(Believed(runner), cause)
              && Classifiable(Believed(runner), Decision(result, runner).failure)
  {
    if Decision(result, runner).FailedCall? { ClassifiableExactly(Believed(runner), Decision(result, runner).failure); }
  }

  // ---- one worker -------------------------------------------------------------------------------------------

  /** What the page trace and the index of workers refer to. */
  predicate SamePage(u: Worker, w: Worker) { u.owner == w.owner && u.filled == w.filled && u.clicks == w.clicks }

  function NewWorker(o: Owner, leaseMs: int): Worker {
    Worker(o, leaseMs, Leased, false, None, None, Leased, false, Executing, [], false, false, false, 0, 0, false, 0)
  }

  /** A page operation that was refused throws inside the strategy and blocks the fenced page. */
  function Deny(w: Worker, page: Option<PageOp>): (u: Worker)
    ensures SamePage(u, w)
  {
    if page.Some? then w.(blocked := true) else w
  }

  function Grant(w: Worker, page: Option<PageOp>): (u: Worker)
    ensures SamePage(u, w)
  {
    match page
    case None => w
    case Some(FillOp) => w.(fillsGranted := w.fillsGranted + 1)
    case Some(ClickOp) => w.(clicksGranted := w.clicksGranted + 1)
  }

  /** `fail()`: the first failure sticks and aborts the execution's signal. */
  function Stick(w: Worker): Worker { w.(sticky := true, aborted := true) }

  function Pop(w: Worker): Worker
    requires w.gate != []
  {
    w.(gate := w.gate[1..])
  }

  function OnPageCall(w: Worker, op: PageOp): (u: Worker)
    ensures SamePage(u, w)
  {
    if w.blocked || w.aborted then w.(blocked := true)
    else
      var call := if op == ClickOp then BarrierCall else if w.started then RenewCall else BeginCall;
      w.(gate := w.gate + [Guarded(call, Some(op))])
  }

  function Send(w: Worker, call: Call): (u: Worker)
    ensures SamePage(u, w)
  {
    w.(handle := PhaseOnSend(w.handle, call), pending := true, wire := Some(StatementFor(call, w.owner, w.leaseMs)))
  }

  /** The gate runs the work at its head, unless a call is already in flight. */
  function OnStartWork(w: Worker): (u: Worker)
    ensures SamePage(u, w)
  {
    if w.gate == [] || w.pending then w
    else
      match w.gate[0]
      case Guarded(call, page) =>
        if w.stage != Executing || w.sticky then Deny(Pop(w), page)
        else if Permits(w.handle, call) then Send(w, call)
        else Deny(Stick(Pop(w)), page)
      case Final(call) =>
        if w.sticky || !Permits(w.handle, call) then Pop(w).(stage := Done(RanUnresolved))
        else Send(w, call)
  }

  function OutcomeOf(v: Verdict, call: Call): Outcome {
    match v
    case Completed => if call.AuthenticatedCall? then RanAuthenticated else RanFailed
    case RetryClaimed => RanRetryClaimed
    case RetryExhausted => RanRetryExhausted
    case _ => RanUnresolved
  }

  function OnReceive(w: Worker): (u: Worker)
    ensures SamePage(u, w)
  {
    if w.gate == [] || !w.pending || w.reply.None? then w
    else
      var work, reply := w.gate[0], w.reply.value;
      var v := VerdictOn(w.handle, work.call, w.owner, reply);
      var u := Pop(w).(handle := PhaseOnReply(w.handle, work.call, w.owner, reply), pending := false, reply := None);
      match work
      case Final(call) => u.(stage := Done(OutcomeOf(v, call)))
      case Guarded(call, page) =>
        if v != Authorized then Deny(Stick(u), page)
        else
          Grant(u.(runner := if call.BeginCall? then InteractionStarted
                             else if call.BarrierCall? then SubmitBarrierRecorded else u.runner), page)
  }

  /** The call throws: its reply, if any, is never seen, and a statement still on the wire may yet execute. */
  function OnLoseReply(w: Worker): (u: Worker)
    ensures SamePage(u, w)
  {
    if w.gate == [] || !w.pending then w
    else
      var work := w.gate[0];
      var u := Pop(w).(handle := Consumed, pending := false, reply := None);
      match work
      case Final(_) => u.(stage := Done(RanUnresolved))
      case Guarded(_, page) => Deny(Stick(u), page)
  }

  function OnDecide(w: Worker): (u: Worker)
    ensures SamePage(u, w)
  {
    if !w.stage.Draining? || w.pending then w
    else if w.sticky then w.(stage := Done(RanUnresolved))
    else w.(stage := Finalizing, gate := w.gate + [Final(Decision(w.stage.result, w.runner))])
  }

  function LocalNext(w: Worker, step: LocalStep): (u: Worker)
    ensures SamePage(u, w)
  {
    match step
    case PageCall(op) => OnPageCall(w, op)
    case Heartbeat => if w.stage == Executing then w.(gate := w.gate + [Guarded(RenewCall, None)]) else w
    case StartWork => OnStartWork(w)
    case Receive => OnReceive(w)
    case LoseReply => OnLoseReply(w)
    case RawSettles(ok) => if !w.filled then w else if ok then w.(started := true) else w.(blocked := true)
    case Abort => w.(aborted := true)
    case Finish(result) => if w.stage == Executing then w.(stage := Draining(result)) else w
    case StopThrows => if w.stage.Draining? then Stick(w) else w
    case Decide => OnDecide(w)
  }

  /** The database executes the statement on the wire; a refused retry claim still owes its second statement. */
  function AfterSql(w: Worker, before: Option<Row>, now: int): (u: Worker)
    requires w.wire.Some?
    ensures SamePage(u, w)
    ensures u == w.(wire := u.wire, reply := u.reply)
  {
    var s := w.wire.value;
    var after := Exec(s, before, now);
    var u := w.(wire := None);
    if !w.pending then u
    else if !Applies(s, before, now) then
      if s.ClaimRetry? then u.(wire := Some(ExhaustRetries(w.owner))) else u.(reply := Some(Refused))
    else if s.ExhaustRetries? then u.(reply := Some(Exhausted))
    else if Parse(after.value).None? then u.(reply := Some(Refused))
    else u.(reply := Some(Applied(Parse(after.value).value)))
  }

  // ---- the whole system -------------------------------------------------------------------------------------

  function WithWorker(s: System, g: int, w: Worker): System { s.(workers := s.workers[g := w]) }

  /** Only the worker side of a click is bookkeeping; the trace records what the row said when it was issued. */
  function OnRawClick(s: System, g: int, w: Worker): System {
    if w.clicksGranted == 0 then s
    else
      var u := w.(clicksGranted := w.clicksGranted - 1);
      if w.aborted then WithWorker(s, g, u.(blocked := true))
      else
        WithWorker(s, g, u.(clicks := w.clicks + 1)).(
          page := s.page + [Clicked(g, if s.slot.Some? then s.slot.value.phase else NoInteraction)])
  }

  function OnRawFill(s: System, g: int, w: Worker): System {
    if w.fillsGranted == 0 then s
    else
      var u := w.(fillsGranted := w.fillsGranted - 1);
      if w.aborted then WithWorker(s, g, u.(blocked := true))
      else WithWorker(s, g, u.(filled := true)).(page := s.page + [Filled(g)])
  }

  function OnLease(s: System, id: string, token: string, leaseMs: int, delivered: bool): System {
    var stmt := Acquire(id, token, leaseMs);
    var s' := s.(slot := Exec(stmt, s.slot, s.now));
    if delivered && s.slot.Some? && Applies(stmt, s.slot, s.now) then
      var g := s'.slot.value.generation;
      WithWorker(s', g, NewWorker(Owner(id, token, g), leaseMs))
    else s'
  }

  function Next(s: System, step: Step): System {
    match step
    case Elapse(ms) => s.(now := s.now + ms)
    case Create(id) => s.(slot := Exec(Insert(id), s.slot, s.now))
    case Lease(id, token, ms, delivered) => OnLease(s, id, token, ms, delivered)
    case Reconcile(stmt) =>
      if stmt.ReconcileForRetry? || stmt.ReconcileAsFailed? then s.(slot := Exec(stmt, s.slot, s.now)) else s
    case Observe(o) => s.(slot := Exec(CompleteAuthenticated(o), s.slot, s.now))
    case Local(g, local) => if g in s.workers then WithWorker(s, g, LocalNext(s.workers[g], local)) else s
    case ExecuteSql(g) =>
      if g in s.workers && s.workers[g].wire.Some? then
        WithWorker(s, g, AfterSql(s.workers[g], s.slot, s.now)).(
          slot := Exec(s.workers[g].wire.value, s.slot, s.now))
      else s
    case RawFill(g) => if g in s.workers then OnRawFill(s, g, s.workers[g]) else s
    case RawClick(g) => if g in s.workers then OnRawClick(s, g, s.workers[g]) else s
    case RawClear(g) => if g in s.workers then s.(page := s.page + [Cleared(g)]) else s
  }

  function Run(start: int, steps: seq<Step>): System {
    if steps == [] then System(None, start, map[], [])
    else Next(Run(start, steps[..|steps| - 1]), steps[|steps| - 1])
  }
}
