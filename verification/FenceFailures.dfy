// What a failure does to a fenced execution: which events make it stick and block the page, exactly, and that from the
// first of them on nothing more is sent, nothing more reaches the page and no outcome but "unresolved" is reported.
module FenceFailures {
  import opened Wrappers
  import opened AttemptMachine
  import opened AttemptRow
  import opened MutationAuthority
  import opened FencedExecution
  import opened FencedExecutionProofs

  // ---- one step of one worker -------------------------------------------------------------------------------

  /** Guarded work is at the head of the gate, and this step hands it back without authorization. */
  predicate Refuses(w: Worker, step: LocalStep) {
    && w.gate != [] && w.gate[0].Guarded?
    && match step
       case StartWork => !w.pending && (w.stage != Executing || w.sticky || !Permits(w.handle, w.gate[0].call))
       case Receive =>
         w.pending && w.reply.Some? && VerdictOn(w.handle, w.gate[0].call, w.owner, w.reply.value) != Authorized
       case LoseReply => w.pending
       case _ => false
  }

  /** This step is a failure: a stop that throws, or a refusal while the execution still ran and nothing had failed. */
  predicate Fails(w: Worker, step: LocalStep) {
    || (step.StopThrows? && w.stage.Draining?)
    || (Refuses(w, step) && (step.StartWork? ==> w.stage == Executing && !w.sticky))
  }

  /** Which failures have stuck, and whether the page is blocked, after a step. */
  predicate FlagsMove(w: Worker, step: LocalStep, u: Worker) {
    && (u.sticky <==> w.sticky || Fails(w, step))
    && (u.aborted <==> w.aborted || step.Abort? || Fails(w, step))
    && (u.started <==> w.started || (step == RawSettles(true) && w.filled))
    && (u.blocked <==>
          || w.blocked
          || (Refuses(w, step) && w.gate[0].page.Some?)
          || (step.PageCall? && w.aborted)
          || (step == RawSettles(false) && w.filled))
  }

  /** The work at the head of the gate has its reply. */
  predicate Replied(w: Worker) { w.gate != [] && w.pending && w.reply.Some? }

  /** What a reply leaves: refused guarded work sticks, and blocks the page it was for. */
  predicate ReplyLeft(w: Worker, refused: bool, u: Worker)
    requires w.gate != [] && (refused ==> w.gate[0].Guarded?)
  {
    && !u.pending && u.wire == w.wire && u.gate == w.gate[1..] && u.started == w.started
    && u.sticky == (w.sticky || refused) && u.aborted == (w.aborted || refused)
    && u.blocked == (w.blocked || (refused && w.gate[0].page.Some?))
    && (w.gate[0].Guarded? ==> u.stage == w.stage)
  }

  lemma FinalReply(w: Worker)
    requires Replied(w) && w.gate[0].Final?
    ensures ReplyLeft(w, false, OnReceive(w))
  {
  }

  lemma RefusedReply(w: Worker)
    requires Replied(w) && w.gate[0].Guarded?
    requires VerdictOn(w.handle, w.gate[0].call, w.owner, w.reply.value) != Authorized
    ensures ReplyLeft(w, true, OnReceive(w))
  {
    assert OnReceive(w) == Deny(Stick(Spent(w)), w.gate[0].page);
  }

  lemma AuthorizedReply(w: Worker)
    requires Replied(w) && w.gate[0].Guarded?
    requires VerdictOn(w.handle, w.gate[0].call, w.owner, w.reply.value) == Authorized
    ensures ReplyLeft(w, false, OnReceive(w))
  {
    assert OnReceive(w) == Grant(Confirmed(w), w.gate[0].page);
    match w.gate[0].page
    case None =>
    case Some(FillOp) =>
    case Some(ClickOp) =>
  }

  lemma GuardedReply(w: Worker)
    requires Replied(w) && w.gate[0].Guarded?
    ensures ReplyLeft(w, VerdictOn(w.handle, w.gate[0].call, w.owner, w.reply.value) != Authorized, OnReceive(w))
  {
    if VerdictOn(w.handle, w.gate[0].call, w.owner, w.reply.value) == Authorized { AuthorizedReply(w); }
    else { RefusedReply(w); }
  }

  lemma StartFlags(w: Worker)
    ensures FlagsMove(w, StartWork, OnStartWork(w))
  {
  }

  lemma ReceiveFlags(w: Worker)
    ensures FlagsMove(w, Receive, OnReceive(w))
  {
    if Replied(w) { if w.gate[0].Final? { FinalReply(w); } else { GuardedReply(w); } }
  }

  lemma LoseFlags(w: Worker)
    ensures FlagsMove(w, LoseReply, OnLoseReply(w))
  {
  }

  /** Exactly what makes a failure stick, aborts the signal, blocks the page, and marks the first fill as made. */
  lemma FlagsExactly(w: Worker, step: LocalStep)
    ensures FlagsMove(w, step, LocalNext(w, step))
  {
    match step
    case StartWork => StartFlags(w);
    case Receive => ReceiveFlags(w);
    case LoseReply => LoseFlags(w);
    case _ =>
  }

  /** The final decision is at the head of the gate. */
  predicate Closing(w: Worker) { w.gate != [] && w.gate[0].Final? }

  /** How far the run has come after a step. */
  predicate StageMoves(w: Worker, step: LocalStep, u: Worker) {
    match step
    case Finish(result) => u.stage == if w.stage == Executing then Draining(result) else w.stage
    case Decide =>
      if !w.stage.Draining? || w.pending then u == w
      else if w.sticky then u.stage == Done(RanUnresolved) && u.gate == w.gate
      else u.stage == Finalizing && u.gate == w.gate + [Final(Decision(w.stage.result, w.runner))]
    case StartWork =>
      u.stage == if Closing(w) && !w.pending && (w.sticky || !Permits(w.handle, w.gate[0].call))
                 then Done(RanUnresolved) else w.stage
    case LoseReply => u.stage == if Closing(w) && w.pending then Done(RanUnresolved) else w.stage
    case Receive =>
      if Closing(w) && w.pending && w.reply.Some? then
        EndsWith(u.stage, VerdictOn(w.handle, w.gate[0].call, w.owner, w.reply.value), w.gate[0].call)
      else u.stage == w.stage
    case _ => u.stage == w.stage
  }

  /** A run ends with what the verdict on its last call says, and unresolved by any other. */
  predicate EndsWith(stage: Stage, v: Verdict, call: Call) {
    && stage.Done?
    && (stage.outcome == RanAuthenticated <==> v == Completed && call.AuthenticatedCall?)
    && (stage.outcome == RanFailed <==> v == Completed && !call.AuthenticatedCall?)
    && (stage.outcome == RanRetryClaimed <==> v == RetryClaimed)
    && (stage.outcome == RanRetryExhausted <==> v == RetryExhausted)
  }

  lemma StartStage(w: Worker)
    ensures StageMoves(w, StartWork, OnStartWork(w))
  {
  }

  lemma ReceiveStage(w: Worker)
    ensures StageMoves(w, Receive, OnReceive(w))
  {
    if Replied(w) && w.gate[0].Guarded? { GuardedReply(w); }
  }

  lemma LoseStage(w: Worker)
    ensures StageMoves(w, LoseReply, OnLoseReply(w))
  {
  }

  /** Exactly how a run proceeds: it returns, drains, decides, and ends with what its last call came to. */
  lemma StageExactly(w: Worker, step: LocalStep)
    ensures StageMoves(w, step, LocalNext(w, step))
  {
    match step
    case StartWork => StartStage(w);
    case Receive => ReceiveStage(w);
    case LoseReply => LoseStage(w);
    case _ =>
  }

  /** A page call asks for nothing once the page is blocked or the signal aborted, and a heartbeat ends with the run. */
  lemma AsksExactly(w: Worker, step: LocalStep)
    requires step.PageCall? || step.Heartbeat?
    ensures LocalNext(w, step).gate
            == w.gate + if step.Heartbeat? then if w.stage == Executing then [Guarded(RenewCall, None)] else []
                        else if w.blocked || w.aborted then []
                        else if step.op == ClickOp then [Guarded(BarrierCall, Some(ClickOp))]
                        else [Guarded(if w.started then RenewCall else BeginCall, Some(FillOp))]
  {
  }

  // ---- one step of the system -------------------------------------------------------------------------------

  /** The statement that executes in this step, if one does. */
  function Executed(s: System, step: Step): Option<Statement> {
    match step
    case Create(id) => Some(Insert(id))
    case Lease(id, token, ms, _) => Some(Acquire(id, token, ms))
    case Reconcile(stmt) => if stmt.ReconcileForRetry? || stmt.ReconcileAsFailed? then Some(stmt) else None
    case Observe(o) => Some(CompleteAuthenticated(o))
    case ExecuteSql(g) => if g in s.workers then s.workers[g].wire else None
    case _ => None
  }

  /** The row moves by the statement that executes and by nothing else, and only time passing moves the clock. */
  lemma RowMovesExactly(s: System, step: Step)
    ensures Next(s, step).slot
            == match Executed(s, step) case None => s.slot case Some(stmt) => Exec(stmt, s.slot, s.now)
    ensures Next(s, step).now == s.now + if step.Elapse? then step.ms else 0
  {
  }

  /** Whoever gets a lease becomes a worker, unless the grant is lost on the way, and nobody else ever does. */
  lemma WorkersComeExactly(s: System, step: Step)
    ensures Next(s, step).workers.Keys
            == s.workers.Keys
               + (if step.Lease? && step.delivered && s.slot.Some?
                     && Applies(Acquire(step.attemptId, step.token, step.leaseMs), s.slot, s.now)
                  then {s.slot.value.generation + 1} else {})
  {
  }

  /** What this step does to the page: a granted fill or click that is not aborted, or an unfenced clearing. */
  function Shown(s: System, step: Step): seq<PageEvent> {
    match step
    case RawFill(g) =>
      if g in s.workers && s.workers[g].fillsGranted > 0 && !s.workers[g].aborted then [Filled(g)] else []
    case RawClick(g) =>
      if g in s.workers && s.workers[g].clicksGranted > 0 && !s.workers[g].aborted
      then [Clicked(g, if s.slot.Some? then s.slot.value.phase else NoInteraction)] else []
    case RawClear(g) => if g in s.workers then [Cleared(g)] else []
    case _ => []
  }

  lemma PageGrowsExactly(s: System, step: Step)
    ensures Next(s, step).page == s.page + Shown(s, step)
  {
  }

  // ---- the first failure is final ---------------------------------------------------------------------------

  predicate AllGuarded(gate: seq<GateWork>) { forall i :: 0 <= i < |gate| ==> gate[i].Guarded? }

  /** The final decision waits for the execution to end, and is never sent after a failure. */
  predicate Orderly(w: Worker) {
    && (w.pending ==> w.gate != [])
    && (w.stage == Executing || w.stage.Draining? ==> AllGuarded(w.gate))
    && (w.stage == Finalizing || w.stage.Done? ==> (w.pending ==> w.gate[0].Final?))
    && (w.sticky ==> w.aborted && w.stage != Finalizing && (w.pending ==> w.gate[0].Guarded?))
    && (w.sticky && w.stage.Done? ==> w.stage.outcome == RanUnresolved)
  }

  lemma StartIsOrderly(w: Worker)
    requires Orderly(w)
    ensures Orderly(OnStartWork(w)) && (w.sticky && w.wire.None? ==> OnStartWork(w).wire.None?)
  {
  }

  lemma ReceiveIsOrderly(w: Worker)
    requires Orderly(w)
    ensures Orderly(OnReceive(w)) && OnReceive(w).wire == w.wire
  {
    if Replied(w) {
      ReceiveStage(w);
      if w.gate[0].Final? { FinalReply(w); } else { GuardedReply(w); }
    }
  }

  lemma LoseIsOrderly(w: Worker)
    requires Orderly(w)
    ensures Orderly(OnLoseReply(w)) && OnLoseReply(w).wire == w.wire
  {
  }

  lemma DecideIsOrderly(w: Worker)
    requires Orderly(w)
    ensures Orderly(OnDecide(w)) && OnDecide(w).wire == w.wire
  {
  }

  /** From a failure on, a worker sends nothing: what is on the wire was sent before. */
  lemma LocalIsOrderly(w: Worker, step: LocalStep)
    requires Orderly(w)
    ensures Orderly(LocalNext(w, step))
    ensures w.sticky && w.wire.None? ==> LocalNext(w, step).wire.None?
  {
    match step
    case StartWork => StartIsOrderly(w);
    case Receive => ReceiveIsOrderly(w);
    case LoseReply => LoseIsOrderly(w);
    case Decide => DecideIsOrderly(w);
    case _ =>
  }

  predicate AllOrderly(s: System) { forall g :: g in s.workers ==> Orderly(s.workers[g]) }

  lemma StepIsOrderly(s: System, step: Step)
    requires Inv(s) && AllOrderly(s)
    ensures AllOrderly(Next(s, step))
  {
    if step.Local? && step.g in s.workers { LocalIsOrderly(s.workers[step.g], step.step); }
  }

  lemma {:induction false} RunIsOrderly(start: int, steps: seq<Step>)
    ensures Inv(Run(start, steps)) && AllOrderly(Run(start, steps))
  {
    RunKeepsInv(start, steps);
    if steps != [] {
      RunIsOrderly(start, steps[..|steps| - 1]);
      StepIsOrderly(Run(start, steps[..|steps| - 1]), steps[|steps| - 1]);
    }
  }

  /** The trace holds no credential of this execution from position `i` on. */
  predicate NothingShown(page: seq<PageEvent>, i: nat, g: int) {
    forall j :: i <= j < |page| && Credential(page[j]) ==> page[j].g != g
  }

  /** A worker that has failed, seen `since` then: it has sent nothing and shown nothing, and reports nothing. */
  predicate Quelled(since: System, s: System, g: int) {
    && g in since.workers && g in s.workers && s.workers[g].sticky
    && (since.workers[g].wire.None? ==> s.workers[g].wire.None?)
    && (s.workers[g].stage.Done? ==> s.workers[g].stage.outcome == RanUnresolved)
    && |since.page| <= |s.page| && s.page[..|since.page|] == since.page && NothingShown(s.page, |since.page|, g)
  }

  /** Any step but its own leaves a worker's conduct as it is. */
  lemma OthersLeaveIt(s: System, step: Step, g: int)
    requires Inv(s) && g in s.workers && !(step.Local? && step.g == g)
    ensures g in Next(s, step).workers
    ensures var u, w := Next(s, step).workers[g], s.workers[g];
            && u.sticky == w.sticky && u.stage == w.stage && (w.wire.None? ==> u.wire.None?)
  {
    match step
    case Lease(id, token, ms, delivered) =>
    case ExecuteSql(h) =>
    case RawFill(h) =>
    case RawClick(h) =>
    case _ =>
  }

  lemma QuelledStays(since: System, s: System, step: Step, g: int)
    requires Inv(s) && AllOrderly(s) && Quelled(since, s, g)
    ensures Quelled(since, Next(s, step), g)
  {
    PageGrowsExactly(s, step);
    StepIsOrderly(s, step);
    if step.Local? && step.g == g {
      FlagsExactly(s.workers[g], step.step);
      LocalIsOrderly(s.workers[g], step.step);
    } else {
      OthersLeaveIt(s, step, g);
    }
  }

  /**
   * The first failure is final, whatever anybody does after it: the worker sends no statement any more (one that is on
   * its way may still execute), no fill and no click of its own reaches the page, and its run is never reported as
   * anything but unresolved.
   */
  lemma {:induction false} FirstFailureIsFinal(start: int, steps: seq<Step>, more: seq<Step>, g: int)
    requires g in Run(start, steps).workers && Run(start, steps).workers[g].sticky
    ensures Quelled(Run(start, steps), Run(start, steps + more), g)
    decreases |more|
  {
    RunIsOrderly(start, steps);
    if more == [] {
      assert steps + more == steps;
    } else {
      var before := more[..|more| - 1];
      FirstFailureIsFinal(start, steps, before, g);
      RunIsOrderly(start, steps + before);
      assert (steps + more)[..|steps + more| - 1] == steps + before;
      QuelledStays(Run(start, steps), Run(start, steps + before), more[|more| - 1], g);
    }
  }
}
