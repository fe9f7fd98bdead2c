// What holds of every interleaving of fenced executions.
module FencedExecutionProofs {
  import opened Wrappers
  import opened AttemptMachine
  import opened AttemptRow
  import opened MutationAuthority
  import opened FencedExecution

  // ---- invariants -------------------------------------------------------------------------------------------

  /** Credentials have been entered, and the lease they were entered under is `g`. */
  predicate Held(slot: Option<Row>, g: int) {
    slot.Some? && slot.value.phase != NoInteraction && Anchor(slot.value) == g
  }

  /** The row has reached at least the phase a live handle or runner phase stands for, under generation `g`. */
  predicate Reached(slot: Option<Row>, g: int, phase: HandlePhase) {
    phase != Consumed && phase != Leased ==> Held(slot, g) && Rank(slot.value.phase) >= Rank(Believed(phase))
  }

  /** The row still carries this worker's generation. */
  predicate HasGeneration(slot: Option<Row>, g: int) {
    slot.Some? && slot.value.status == ActiveStatus && slot.value.generation == g
  }

  /** A failure the runner may report: never "transient", and "uncertain" only once credentials were begun. */
  predicate FailureFits(f: FailurePair, runner: HandlePhase) {
    && PermittedPair(f)
    && f.failureClass != TransientPreInteraction
    && (f.failureClass == InteractionOutcomeUncertain ==> runner != Leased)
  }

  predicate WorkSound(work: GateWork, filled: bool, runner: HandlePhase) {
    match work
    case Guarded(call, page) =>
      && !Finishes(call)
      && (page == Some(ClickOp) ==> call == BarrierCall)
      && (page == Some(FillOp) ==> call == BeginCall || (call == RenewCall && filled))
    case Final(call) => Finishes(call) && (call.FailedCall? ==> FailureFits(call.failure, runner))
  }

  predicate GateSound(gate: seq<GateWork>, filled: bool, runner: HandlePhase) {
    forall i :: 0 <= i < |gate| ==> WorkSound(gate[i], filled, runner)
  }

  /** The call in flight, its statement and its reply belong together. */
  predicate FlightSound(w: Worker) {
    && (w.pending ==>
          && w.gate != []
          && w.wire.Some? == w.reply.None?
          && (w.wire.Some? ==>
                w.wire.value == StatementFor(w.gate[0].call, w.owner, w.leaseMs)
                || (w.gate[0].call.RetryCall? && w.wire.value == ExhaustRetries(w.owner)))
          && (if Finishes(w.gate[0].call) then w.handle == Consumed
              else Permits(w.handle, w.gate[0].call) && w.handle != Consumed))
    && (!w.pending ==> w.reply.None? && (w.wire.Some? ==> w.handle == Consumed))
    && (w.wire.Some? ==> ByOwner(w.wire.value, w.owner))
    && (w.wire.Some? && w.wire.value.CompleteFailed? ==> FailureFits(w.wire.value.failure, w.runner))
  }

  /** A reply that has arrived describes something the row has done since. */
  predicate ReplySound(slot: Option<Row>, w: Worker)
    requires slot.Some? && FlightSound(w)
  {
    w.pending && w.reply.Some? ==>
      var g := w.owner.generation;
      match w.reply.value
      case Refused => true
      case Exhausted => slot.value.status == FailedStatus && slot.value.generation == g + 1
      case Applied(r) =>
        && (!r.ActiveRecord? ==> Parse(slot.value) == Some(r))
        && (w.gate[0].call.AuthenticatedCall? ==> r.AuthenticatedRecord?)
        && (w.gate[0].call.FailedCall? ==> r.FailedRecord?)
        && (w.gate[0].call.BeginCall? ==> r.phase == CredentialsMayHaveReached && Reached(slot, g, InteractionStarted))
        && (w.gate[0].call.BarrierCall? ==>
            && r.phase == SubmitMayHaveBeenDispatched
            && Reached(slot, g, SubmitBarrierRecorded))
  }

  /** Where the row must be while it has the worker's generation and the handle is live. */
  predicate PhasesAgree(slot: Option<Row>, w: Worker)
    requires slot.Some?
  {
    w.handle != Consumed && HasGeneration(slot, w.owner.generation) ==>
      if w.pending && w.reply.Some? && w.reply.value.Applied? then slot.value.phase == w.reply.value.record.phase
      else slot.value.phase == Believed(w.handle)
  }

  predicate PageSound(slot: Option<Row>, w: Worker) {
    && (w.filled || w.fillsGranted > 0 ==> Held(slot, w.owner.generation))
    && (w.started ==> w.filled)
    && w.clicks + w.clicksGranted <= 1
    && (w.clicks + w.clicksGranted > 0 ==>
          && Held(slot, w.owner.generation)
          && slot.value.phase == SubmitMayHaveBeenDispatched
          && (w.handle == SubmitBarrierRecorded || w.handle == Consumed))
  }

  predicate OutcomeSound(slot: Option<Row>, w: Worker)
    requires slot.Some?
  {
    w.stage.Done? ==>
      && (w.stage.outcome == RanAuthenticated ==>
            slot.value.status == AuthenticatedStatus && slot.value.generation == w.owner.generation + 1)
      && (w.stage.outcome == RanFailed || w.stage.outcome == RanRetryExhausted ==>
            slot.value.status == FailedStatus && slot.value.generation == w.owner.generation + 1)
  }

  /** Everything about a worker that survives any evolution of the row. */
  predicate Durable(slot: Option<Row>, w: Worker) {
    && slot.Some?
    && w.owner.generation <= slot.value.generation
    && (HasGeneration(slot, w.owner.generation) ==> slot.value.ownerToken == Some(w.owner.token))
    && GateSound(w.gate, w.filled, w.runner)
    && FlightSound(w)
    && ReplySound(slot, w)
    && Reached(slot, w.owner.generation, w.handle)
    && w.runner != Consumed
    && Reached(slot, w.owner.generation, w.runner)
    && (!w.sticky && w.handle != Consumed ==> w.runner == w.handle)
    && PageSound(slot, w)
    && OutcomeSound(slot, w)
  }

  predicate WorkerSound(slot: Option<Row>, w: Worker) {
    Durable(slot, w) && PhasesAgree(slot, w)
  }

  /** A failed row carries a failure the pure machine produces, and "transient" only on an exhausted budget. */
  predicate DrivenSlot(slot: Option<Row>) {
    slot.Some? && slot.value.status == FailedStatus && Parse(slot.value).Some? ==>
      var f := Parse(slot.value).value.failure;
      && (f.failureClass == InteractionOutcomeUncertain ==> slot.value.phase != NoInteraction)
      && (f.failureClass == TransientPreInteraction ==> slot.value.phase == NoInteraction && slot.value.retryCount == 2)
  }

  predicate EventSound(s: System, e: PageEvent) {
    match e
    case Filled(g) => g in s.workers && s.workers[g].filled
    case Clicked(g, p) => g in s.workers && s.workers[g].clicks > 0 && p == SubmitMayHaveBeenDispatched
    case Cleared(g) => g in s.workers
  }

  predicate OneClick(page: seq<PageEvent>) {
    forall i, j :: 0 <= i < j < |page| && page[i].Clicked? ==> !page[j].Clicked?
  }

  predicate TraceSound(s: System) {
    (forall i :: 0 <= i < |s.page| ==> EventSound(s, s.page[i])) && OneClick(s.page)
  }

  predicate WorkersSound(s: System) {
    forall g :: g in s.workers ==> s.workers[g].owner.generation == g && WorkerSound(s.slot, s.workers[g])
  }

  predicate Inv(s: System) {
    SoundSlot(s.slot) && DrivenSlot(s.slot) && WorkersSound(s) && TraceSound(s)
  }

  // ---- one worker, its own steps ----------------------------------------------------------------------------

  lemma DenyKeeps(slot: Option<Row>, w: Worker, page: Option<PageOp>)
    requires WorkerSound(slot, w)
    ensures WorkerSound(slot, Deny(w, page))
  {
  }

  lemma StickKeeps(slot: Option<Row>, w: Worker)
    requires WorkerSound(slot, w)
    ensures WorkerSound(slot, Stick(w))
  {
  }

  lemma PopKeeps(slot: Option<Row>, w: Worker)
    requires WorkerSound(slot, w) && w.gate != [] && !w.pending
    ensures WorkerSound(slot, Pop(w))
  {
  }

  lemma SendKeeps(slot: Option<Row>, w: Worker)
    requires WorkerSound(slot, w) && w.gate != [] && !w.pending && Permits(w.handle, w.gate[0].call)
    ensures WorkerSound(slot, Send(w, w.gate[0].call))
  {
  }

  lemma StartWorkKeeps(slot: Option<Row>, w: Worker)
    requires WorkerSound(slot, w)
    ensures WorkerSound(slot, OnStartWork(w))
  {
    if w.gate != [] && !w.pending {
      PopKeeps(slot, w);
      match w.gate[0]
      case Guarded(call, page) =>
        if w.stage != Executing || w.sticky {
          DenyKeeps(slot, Pop(w), page);
        } else if Permits(w.handle, call) {
          SendKeeps(slot, w);
        } else {
          StickKeeps(slot, Pop(w));
          DenyKeeps(slot, Stick(Pop(w)), page);
        }
      case Final(call) =>
        if !w.sticky && Permits(w.handle, call) { SendKeeps(slot, w); }
    }
  }

  /** The handle is spent and the call is over: a lost reply, or one that confirms nothing. */
  function Spent(w: Worker): Worker
    requires w.gate != []
  {
    Pop(w).(handle := Consumed, pending := false, reply := None)
  }

  lemma SpentKeeps(slot: Option<Row>, w: Worker)
    requires WorkerSound(slot, w) && w.pending
    ensures WorkerSound(slot, Spent(w))
  {
  }

  lemma FinalReceiveKeeps(slot: Option<Row>, w: Worker)
    requires WorkerSound(slot, w) && w.pending && w.reply.Some? && w.gate[0].Final?
    ensures WorkerSound(slot, OnReceive(w))
  {
    assert WorkSound(w.gate[0], w.filled, w.runner);
    SpentKeeps(slot, w);
  }

  /** A confirmed reply, before the page operation that waited for it is told. */
  function Confirmed(w: Worker): Worker
    requires w.gate != [] && w.reply.Some?
  {
    var call := w.gate[0].call;
    Pop(w).(handle := PhaseOnReply(w.handle, call, w.owner, w.reply.value), pending := false, reply := None,
            runner := if call.BeginCall? then InteractionStarted
                      else if call.BarrierCall? then SubmitBarrierRecorded else w.runner)
  }

  lemma ConfirmedKeeps(slot: Option<Row>, w: Worker)
    requires WorkerSound(slot, w) && w.pending && w.reply.Some? && w.gate[0].Guarded?
    requires Confirms(w.handle, w.gate[0].call, w.owner, w.reply.value)
    ensures WorkerSound(slot, Confirmed(w))
  {
  }

  lemma GrantKeeps(slot: Option<Row>, w: Worker, page: Option<PageOp>)
    requires WorkerSound(slot, w)
    requires page == Some(FillOp) ==> Held(slot, w.owner.generation)
    requires page == Some(ClickOp) ==>
               w.handle == SubmitBarrierRecorded && w.clicks + w.clicksGranted == 0
    ensures WorkerSound(slot, Grant(w, page))
  {
  }

  lemma ConfirmedReceiveKeeps(slot: Option<Row>, w: Worker)
    requires WorkerSound(slot, w) && w.pending && w.reply.Some? && w.gate[0].Guarded?
    requires Confirms(w.handle, w.gate[0].call, w.owner, w.reply.value)
    ensures WorkerSound(slot, OnReceive(w))
  {
    var work := w.gate[0];
    assert WorkSound(work, w.filled, w.runner);
    ConfirmedKeeps(slot, w);
    GrantKeeps(slot, Confirmed(w), work.page);
    assert OnReceive(w) == Grant(Confirmed(w), work.page);
  }

  lemma PoisonedReceiveKeeps(slot: Option<Row>, w: Worker)
    requires WorkerSound(slot, w) && w.pending && w.reply.Some? && w.gate[0].Guarded?
    requires !Confirms(w.handle, w.gate[0].call, w.owner, w.reply.value)
    ensures WorkerSound(slot, OnReceive(w))
  {
    var work := w.gate[0];
    assert WorkSound(work, w.filled, w.runner);
    SpentKeeps(slot, w);
    StickKeeps(slot, Spent(w));
    DenyKeeps(slot, Stick(Spent(w)), work.page);
  }

  lemma ReceiveKeeps(slot: Option<Row>, w: Worker)
    requires WorkerSound(slot, w)
    ensures WorkerSound(slot, OnReceive(w))
  {
    if w.gate != [] && w.pending && w.reply.Some? {
      if w.gate[0].Final? {
        FinalReceiveKeeps(slot, w);
      } else if Confirms(w.handle, w.gate[0].call, w.owner, w.reply.value) {
        ConfirmedReceiveKeeps(slot, w);
      } else {
        PoisonedReceiveKeeps(slot, w);
      }
    }
  }

  lemma LoseReplyKeeps(slot: Option<Row>, w: Worker)
    requires WorkerSound(slot, w)
    ensures WorkerSound(slot, OnLoseReply(w))
  {
    if w.gate != [] && w.pending {
      SpentKeeps(slot, w);
      StickKeeps(slot, Spent(w));
      if w.gate[0].Guarded? { DenyKeeps(slot, Stick(Spent(w)), w.gate[0].page); }
    }
  }

  lemma EnqueueKeeps(slot: Option<Row>, w: Worker, work: GateWork)
    requires WorkerSound(slot, w) && WorkSound(work, w.filled, w.runner)
    ensures WorkerSound(slot, w.(gate := w.gate + [work]))
  {
  }

  lemma DecideKeeps(slot: Option<Row>, w: Worker)
    requires WorkerSound(slot, w)
    ensures WorkerSound(slot, OnDecide(w))
  {
    if w.stage.Draining? && !w.pending && !w.sticky {
      EnqueueKeeps(slot, w, Final(Decision(w.stage.result, w.runner)));
    }
  }

  lemma PageCallKeeps(slot: Option<Row>, w: Worker, op: PageOp)
    requires WorkerSound(slot, w)
    ensures WorkerSound(slot, OnPageCall(w, op))
  {
    if !w.blocked && !w.aborted {
      var call := if op == ClickOp then BarrierCall else if w.started then RenewCall else BeginCall;
      EnqueueKeeps(slot, w, Guarded(call, Some(op)));
    }
  }

  /** Abort signals, settled page promises and the end of the execution touch flags only. */
  lemma FlagsKeep(slot: Option<Row>, w: Worker, aborted: bool, blocked: bool, started: bool)
    requires WorkerSound(slot, w) && (started ==> w.filled)
    ensures WorkerSound(slot, w.(aborted := aborted, blocked := blocked, started := started))
  {
  }

  lemma StageKeeps(slot: Option<Row>, w: Worker, stage: Stage)
    requires WorkerSound(slot, w) && !stage.Done?
    ensures WorkerSound(slot, w.(stage := stage))
  {
  }

  lemma LocalKeeps(slot: Option<Row>, w: Worker, step: LocalStep)
    requires WorkerSound(slot, w)
    ensures WorkerSound(slot, LocalNext(w, step))
  {
    match step
    case PageCall(op) => PageCallKeeps(slot, w, op);
    case Heartbeat => EnqueueKeeps(slot, w, Guarded(RenewCall, None));
    case StartWork => StartWorkKeeps(slot, w);
    case Receive => ReceiveKeeps(slot, w);
    case LoseReply => LoseReplyKeeps(slot, w);
    case Decide => DecideKeeps(slot, w);
    case StopThrows => StickKeeps(slot, w);
    case RawSettles(ok) => if w.filled { FlagsKeep(slot, w, w.aborted, !ok || w.blocked, ok || w.started); }
    case Abort => FlagsKeep(slot, w, true, w.blocked, w.started);
    case Finish(result) => StageKeeps(slot, w, Draining(result));
  }

  // ---- one worker, the row's steps --------------------------------------------------------------------------

  lemma DurableEvolves(before: Option<Row>, after: Option<Row>, w: Worker)
    requires Durable(before, w) && Evolves(before, after) && SoundSlot(before)
    ensures Durable(after, w)
  {
  }

  /** A handle whose call has failed: its statement may still execute, and nothing is listening. */
  lemma OrphanSqlKeeps(slot: Option<Row>, now: int, w: Worker)
    requires SoundSlot(slot) && WorkerSound(slot, w) && w.wire.Some? && !w.pending
    ensures WorkerSound(Exec(w.wire.value, slot, now), AfterSql(w, slot, now))
  {
  }

  lemma RewireKeeps(slot: Option<Row>, w: Worker, wire: Option<Statement>, reply: Option<Reply>)
    requires Durable(slot, w)
    requires var u := w.(wire := wire, reply := reply); FlightSound(u) && ReplySound(slot, u)
    ensures Durable(slot, w.(wire := wire, reply := reply))
  {
  }

  /** A refused retry claim goes on to its second statement; any other refusal is the reply. */
  lemma RefusedRewires(slot: Option<Row>, now: int, w: Worker)
    requires w.wire.Some? && w.pending && !Applies(w.wire.value, slot, now) && w.reply.None?
    ensures AfterSql(w, slot, now)
            == if w.wire.value.ClaimRetry? then w.(wire := Some(ExhaustRetries(w.owner)))
               else w.(wire := None, reply := Some(Refused))
  {
  }

  lemma ExhaustionFlies(slot: Option<Row>, w: Worker)
    requires WorkerSound(slot, w) && w.pending && w.wire.Some? && w.wire.value.ClaimRetry?
    ensures WorkerSound(slot, w.(wire := Some(ExhaustRetries(w.owner))))
  {
    assert WorkSound(w.gate[0], w.filled, w.runner);
    RewireKeeps(slot, w, Some(ExhaustRetries(w.owner)), None);
    assert w.(wire := Some(ExhaustRetries(w.owner))) == w.(wire := Some(ExhaustRetries(w.owner)), reply := None);
  }

  lemma RefusalArrives(slot: Option<Row>, w: Worker)
    requires WorkerSound(slot, w) && w.pending && w.wire.Some?
    ensures WorkerSound(slot, w.(wire := None, reply := Some(Refused)))
  {
    RewireKeeps(slot, w, None, Some(Refused));
  }

  lemma RefusedSqlKeeps(slot: Option<Row>, now: int, w: Worker)
    requires WorkerSound(slot, w) && w.wire.Some? && w.pending && !Applies(w.wire.value, slot, now)
    ensures WorkerSound(slot, AfterSql(w, slot, now))
  {
    RefusedRewires(slot, now, w);
    if w.wire.value.ClaimRetry? { ExhaustionFlies(slot, w); } else { RefusalArrives(slot, w); }
  }

  /** What the reply to an applied statement of the call in flight says about the row it left. */
  lemma AppliedReply(slot: Option<Row>, now: int, w: Worker)
    requires SoundSlot(slot) && WorkerSound(slot, w) && w.wire.Some? && w.pending && Applies(w.wire.value, slot, now)
    ensures var after, u := Exec(w.wire.value, slot, now), AfterSql(w, slot, now);
            FlightSound(u) && after.Some? && ReplySound(after, u) && PhasesAgree(after, u)
  {
    ExecKeepsSound(w.wire.value, slot, now);
  }

  lemma AppliedSqlKeeps(slot: Option<Row>, now: int, w: Worker)
    requires SoundSlot(slot) && WorkerSound(slot, w) && w.wire.Some? && w.pending && Applies(w.wire.value, slot, now)
    ensures WorkerSound(Exec(w.wire.value, slot, now), AfterSql(w, slot, now))
  {
    var after, u := Exec(w.wire.value, slot, now), AfterSql(w, slot, now);
    ExecEvolves(w.wire.value, slot, now);
    DurableEvolves(slot, after, w);
    AppliedReply(slot, now, w);
    RewireKeeps(after, w, u.wire, u.reply);
  }

  lemma SqlKeepsWorker(slot: Option<Row>, now: int, w: Worker)
    requires SoundSlot(slot) && WorkerSound(slot, w) && w.wire.Some?
    ensures WorkerSound(Exec(w.wire.value, slot, now), AfterSql(w, slot, now))
  {
    if !w.pending {
      OrphanSqlKeeps(slot, now, w);
    } else if Applies(w.wire.value, slot, now) {
      AppliedSqlKeeps(slot, now, w);
    } else {
      RefusedSqlKeeps(slot, now, w);
      assert Exec(w.wire.value, slot, now) == slot;
    }
  }

  /** A statement that cannot move the interaction phase under generation `g`. */
  predicate Foreign(s: Statement, g: int) {
    && (s.BeginCredentials? ==> s.owner.generation != g)
    && (s.RecordBarrier? ==> s.owner.generation != g)
  }

  lemma ForeignKeepsWorker(slot: Option<Row>, now: int, s: Statement, w: Worker)
    requires SoundSlot(slot) && WorkerSound(slot, w) && Foreign(s, w.owner.generation)
    ensures WorkerSound(Exec(s, slot, now), w)
  {
    ExecEvolves(s, slot, now);
    DurableEvolves(slot, Exec(s, slot, now), w);
  }

  // ---- the system -------------------------------------------------------------------------------------------

  /** A statement that keeps the row within what the runner, coordinator and reconciler may write. */
  predicate Driven(s: Statement, slot: Option<Row>) {
    s.CompleteFailed? ==>
      && s.failure.failureClass != TransientPreInteraction
      && (s.failure.failureClass == InteractionOutcomeUncertain ==> slot.Some? && slot.value.phase != NoInteraction)
  }

  lemma DrivenKeeps(s: Statement, slot: Option<Row>, now: int)
    requires SoundSlot(slot) && DrivenSlot(slot) && Driven(s, slot)
    ensures DrivenSlot(Exec(s, slot, now))
  {
  }

  // The trace by itself: nothing here looks into a worker beyond what the trace refers to.

  /** A worker's raw mutations are remembered when it takes a step. */
  lemma TraceCarries(s: System, g: int, u: Worker)
    requires TraceSound(s) && g in s.workers
    requires (s.workers[g].filled ==> u.filled) && s.workers[g].clicks <= u.clicks
    ensures TraceSound(WithWorker(s, g, u))
  {
    var t := WithWorker(s, g, u);
    forall i | 0 <= i < |t.page| ensures EventSound(t, t.page[i]) { assert EventSound(s, s.page[i]); }
  }

  lemma TraceExtends(s: System, e: PageEvent)
    requires TraceSound(s) && EventSound(s, e)
    requires e.Clicked? ==> forall i :: 0 <= i < |s.page| ==> !s.page[i].Clicked?
    ensures TraceSound(s.(page := s.page + [e]))
  {
    var t := s.(page := s.page + [e]);
    forall i | 0 <= i < |t.page| ensures EventSound(t, t.page[i]) {
      if i < |s.page| { assert EventSound(s, s.page[i]); }
    }
  }

  lemma RowStep(s: System, slot: Option<Row>, workers: map<int, Worker>)
    requires TraceSound(s) && SoundSlot(slot) && DrivenSlot(slot) && s.workers.Keys <= workers.Keys
    requires forall g :: g in s.workers ==> SamePage(workers[g], s.workers[g])
    requires WorkersSound(s.(slot := slot, workers := workers))
    ensures Inv(s.(slot := slot, workers := workers))
  {
    var t := s.(slot := slot, workers := workers);
    forall i | 0 <= i < |t.page| ensures EventSound(t, t.page[i]) { assert EventSound(s, s.page[i]); }
  }

  // Steps of the row.

  lemma ForeignStep(s: System, stmt: Statement)
    requires Inv(s) && Driven(stmt, s.slot)
    requires forall g :: g in s.workers ==> Foreign(stmt, g)
    ensures Inv(s.(slot := Exec(stmt, s.slot, s.now)))
  {
    ExecKeepsSound(stmt, s.slot, s.now);
    DrivenKeeps(stmt, s.slot, s.now);
    forall g | g in s.workers
      ensures WorkerSound(Exec(stmt, s.slot, s.now), s.workers[g])
    {
      ForeignKeepsWorker(s.slot, s.now, stmt, s.workers[g]);
    }
    RowStep(s, Exec(stmt, s.slot, s.now), s.workers);
  }

  lemma NewWorkerSound(slot: Option<Row>, o: Owner, ms: int)
    requires SoundSlot(slot) && slot.Some? && slot.value.status == ActiveStatus && slot.value.phase == NoInteraction
    requires slot.value.generation == o.generation && slot.value.ownerToken == Some(o.token)
    ensures WorkerSound(slot, NewWorker(o, ms))
  {
  }

  lemma LeaseStep(s: System, id: string, token: string, ms: int, delivered: bool)
    requires Inv(s)
    ensures Inv(OnLease(s, id, token, ms, delivered))
  {
    var stmt := Acquire(id, token, ms);
    ForeignStep(s, stmt);
    var t := s.(slot := Exec(stmt, s.slot, s.now));
    if delivered && s.slot.Some? && Applies(stmt, s.slot, s.now) {
      var g := t.slot.value.generation;
      assert g !in s.workers;
      NewWorkerSound(t.slot, Owner(id, token, g), ms);
      RowStep(t, t.slot, t.workers[g := NewWorker(Owner(id, token, g), ms)]);
    }
  }

  lemma SqlStep(s: System, g: int)
    requires Inv(s) && g in s.workers && s.workers[g].wire.Some?
    ensures Inv(Next(s, ExecuteSql(g)))
  {
    var w := s.workers[g];
    var stmt := w.wire.value;
    ExecKeepsSound(stmt, s.slot, s.now);
    DrivenKeeps(stmt, s.slot, s.now);
    SqlKeepsWorker(s.slot, s.now, w);
    forall h | h in s.workers && h != g
      ensures WorkerSound(Exec(stmt, s.slot, s.now), s.workers[h])
    {
      ForeignKeepsWorker(s.slot, s.now, stmt, s.workers[h]);
    }
    RowStep(s, Exec(stmt, s.slot, s.now), s.workers[g := AfterSql(w, s.slot, s.now)]);
  }

  // Steps of one worker and the page.

  lemma WorkerStep(s: System, g: int, u: Worker)
    requires Inv(s) && g in s.workers && u.owner == s.workers[g].owner && WorkerSound(s.slot, u)
    requires (s.workers[g].filled ==> u.filled) && s.workers[g].clicks <= u.clicks
    ensures Inv(WithWorker(s, g, u))
  {
    TraceCarries(s, g, u);
  }

  lemma ClickIssuedKeeps(slot: Option<Row>, w: Worker)
    requires WorkerSound(slot, w) && w.clicksGranted > 0
    ensures WorkerSound(slot, w.(clicksGranted := w.clicksGranted - 1))
    ensures WorkerSound(slot, w.(clicksGranted := w.clicksGranted - 1, clicks := w.clicks + 1))
  {
  }

  /** A worker that may click, or has clicked, holds the row's only click. */
  lemma ClicksAreOnes(slot: Option<Row>, v: Worker, w: Worker)
    requires PageSound(slot, v) && PageSound(slot, w) && v.clicks > 0 && w.clicksGranted > 0
    ensures v.owner.generation == w.owner.generation && v != w
  {
  }

  /** With a click still to be made, none has been: an earlier one would have been this worker's own. */
  lemma NoEarlierClick(s: System, g: int, i: nat)
    requires Inv(s) && g in s.workers && s.workers[g].clicksGranted > 0 && i < |s.page|
    ensures !s.page[i].Clicked?
  {
    assert EventSound(s, s.page[i]);
    if s.page[i].Clicked? {
      ClicksAreOnes(s.slot, s.workers[s.page[i].g], s.workers[g]);
    }
  }

  lemma ClickLands(s: System, g: int, clicked: Worker)
    requires Inv(s) && g in s.workers && s.workers[g].clicksGranted > 0
    requires var w := s.workers[g]; clicked == w.(clicksGranted := w.clicksGranted - 1, clicks := w.clicks + 1)
    requires WorkerSound(s.slot, clicked)
    ensures s.slot.Some?
    ensures Inv(WithWorker(s, g, clicked).(page := s.page + [Clicked(g, s.slot.value.phase)]))
  {
    forall i | 0 <= i < |s.page| ensures !s.page[i].Clicked? { NoEarlierClick(s, g, i); }
    ClickFindsBarrier(s.slot, s.workers[g]);
    WorkerStep(s, g, clicked);
    TraceExtends(WithWorker(s, g, clicked), Clicked(g, s.slot.value.phase));
  }

  lemma RawClickStep(s: System, g: int)
    requires Inv(s) && g in s.workers
    ensures Inv(OnRawClick(s, g, s.workers[g]))
  {
    var w := s.workers[g];
    if w.clicksGranted > 0 {
      ClickIssuedKeeps(s.slot, w);
      var left := w.(clicksGranted := w.clicksGranted - 1);
      if w.aborted {
        DenyKeeps(s.slot, left, Some(ClickOp));
        WorkerStep(s, g, left.(blocked := true));
      } else {
        ClickLands(s, g, left.(clicks := w.clicks + 1));
      }
    }
  }

  lemma ClickFindsBarrier(slot: Option<Row>, w: Worker)
    requires WorkerSound(slot, w) && w.clicksGranted > 0
    ensures slot.Some? && slot.value.phase == SubmitMayHaveBeenDispatched
  {
  }

  lemma FillIssuedKeeps(slot: Option<Row>, w: Worker)
    requires WorkerSound(slot, w) && w.fillsGranted > 0
    ensures WorkerSound(slot, w.(fillsGranted := w.fillsGranted - 1))
    ensures WorkerSound(slot, w.(fillsGranted := w.fillsGranted - 1, filled := true))
  {
  }

  lemma RawFillStep(s: System, g: int)
    requires Inv(s) && g in s.workers
    ensures Inv(OnRawFill(s, g, s.workers[g]))
  {
    var w := s.workers[g];
    if w.fillsGranted > 0 {
      FillIssuedKeeps(s.slot, w);
      var left := w.(fillsGranted := w.fillsGranted - 1);
      if w.aborted {
        DenyKeeps(s.slot, left, Some(FillOp));
        WorkerStep(s, g, left.(blocked := true));
      } else {
        WorkerStep(s, g, left.(filled := true));
        TraceExtends(WithWorker(s, g, left.(filled := true)), Filled(g));
      }
    }
  }

  lemma RawClearStep(s: System, g: int)
    requires Inv(s) && g in s.workers
    ensures Inv(s.(page := s.page + [Cleared(g)]))
  {
    TraceExtends(s, Cleared(g));
  }

  lemma LocalStepKeeps(s: System, g: int, step: LocalStep)
    requires Inv(s) && g in s.workers
    ensures Inv(Next(s, Local(g, step)))
  {
    LocalKeeps(s.slot, s.workers[g], step);
    WorkerStep(s, g, LocalNext(s.workers[g], step));
  }

  lemma StepKeepsInv(s: System, step: Step)
    requires Inv(s)
    ensures Inv(Next(s, step))
  {
    match step
    case Elapse(_) =>
    case Create(id) => ForeignStep(s, Insert(id));
    case Lease(id, token, ms, delivered) => LeaseStep(s, id, token, ms, delivered);
    case Reconcile(stmt) => if stmt.ReconcileForRetry? || stmt.ReconcileAsFailed? { ForeignStep(s, stmt); }
    case Observe(o) => ForeignStep(s, AttemptRow.CompleteAuthenticated(o));
    case Local(g, local) => if g in s.workers { LocalStepKeeps(s, g, local); }
    case ExecuteSql(g) => if g in s.workers && s.workers[g].wire.Some? { SqlStep(s, g); }
    case RawFill(g) => if g in s.workers { RawFillStep(s, g); }
    case RawClick(g) => if g in s.workers { RawClickStep(s, g); }
    case RawClear(g) => if g in s.workers { RawClearStep(s, g); }
  }

  lemma {:induction false} RunKeepsInv(start: int, steps: seq<Step>)
    ensures Inv(Run(start, steps))
  {
    if steps != [] {
      RunKeepsInv(start, steps[..|steps| - 1]);
      StepKeepsInv(Run(start, steps[..|steps| - 1]), steps[|steps| - 1]);
    }
  }

  // ---- what it means ----------------------------------------------------------------------------------------

  /** Over every interleaving and for any strategy, at most one click ever reaches the page. */
  lemma AtMostOneClick(start: int, steps: seq<Step>, i: int, j: int)
    requires var page := Run(start, steps).page;
             0 <= i < |page| && 0 <= j < |page| && page[i].Clicked? && page[j].Clicked?
    ensures i == j
  {
    RunKeepsInv(start, steps);
  }

  /** When the click was issued the row already said a submit may have been dispatched, and it still does. */
  lemma ClickIsRecordedFirst(start: int, steps: seq<Step>, i: int)
    requires var page := Run(start, steps).page; 0 <= i < |page| && page[i].Clicked?
    ensures var s := Run(start, steps);
            && s.page[i].recorded == SubmitMayHaveBeenDispatched
            && s.slot.Some? && s.slot.value.phase == SubmitMayHaveBeenDispatched
            && Anchor(s.slot.value) == s.page[i].g
  {
    RunKeepsInv(start, steps);
    assert EventSound(Run(start, steps), Run(start, steps).page[i]);
  }

  predicate Credential(e: PageEvent) { e.Filled? || e.Clicked? }

  /** Every non-empty fill, and the click, belongs to one single execution. */
  lemma OneExecutionTouchesCredentials(start: int, steps: seq<Step>, i: int, j: int)
    requires var page := Run(start, steps).page;
             0 <= i < |page| && 0 <= j < |page| && Credential(page[i]) && Credential(page[j])
    ensures Run(start, steps).page[i].g == Run(start, steps).page[j].g
  {
    RunKeepsInv(start, steps);
    assert EventSound(Run(start, steps), Run(start, steps).page[i]);
    assert EventSound(Run(start, steps), Run(start, steps).page[j]);
  }

  /** Row, handle and runner agree whenever the handle is live and idle and the row still has its generation. */
  lemma ThreeLevelAgreement(start: int, steps: seq<Step>, g: int)
    requires var s := Run(start, steps);
             g in s.workers && s.workers[g].handle != Consumed && !s.workers[g].pending && HasGeneration(s.slot, g)
    ensures var s := Run(start, steps);
            && s.slot.value.phase == Believed(s.workers[g].handle)
            && (!s.workers[g].sticky ==>
                  s.workers[g].runner == s.workers[g].handle && s.slot.value.phase == Believed(s.workers[g].runner))
  {
    RunKeepsInv(start, steps);
  }

  /** Every failed row carries what the pure machine would say, and no terminal row is retried automatically. */
  lemma TerminalRowsAreClassified(start: int, steps: seq<Step>)
    requires var slot := Run(start, steps).slot; slot.Some? && slot.value.status != ActiveStatus
    ensures var row := Run(start, steps).slot.value;
            && Abstraction(row).Some? && !Abstraction(row).value.Active?
            && (row.status == FailedStatus ==> Classifiable(row.phase, Abstraction(row).value.failure))
            && Disposition(Abstraction(row).value, row.retryCount) == DoNotRetry
  {
    RunKeepsInv(start, steps);
    var row := Run(start, steps).slot.value;
    if row.status == FailedStatus {
      ClassifiableExactly(row.phase, Abstraction(row).value.failure);
    }
  }

  function MachineState(slot: Option<Row>): Option<Attempt> {
    if slot.None? then None else Abstraction(slot.value)
  }

  /** `b` is `a`, or the pure machine takes `a` to `b`, or the attempt has just been created. */
  ghost predicate MachineStep(a: Option<Attempt>, b: Option<Attempt>) {
    || a == b
    || (a.None? && b == Some(Attempt.Active(NoInteraction)))
    || (a.Some? && b.Some? && exists e :: Transition(a.value, e) == Success(b.value))
  }

  lemma StatementStep(s: System, stmt: Statement)
    requires Inv(s) && Driven(stmt, s.slot)
    ensures MachineStep(MachineState(s.slot), MachineState(Exec(stmt, s.slot, s.now)))
  {
    if s.slot.Some? && Applies(stmt, s.slot, s.now) {
      StatementRefinesMachine(stmt, s.slot.value, s.now);
      if stmt.CompleteFailed? {
        ClassifiableExactly(s.slot.value.phase, stmt.failure);
      }
    }
  }

  /** The driven row refines the pure machine: each step of any run is one of its transitions or a stutter. */
  lemma RowRefinesMachine(start: int, steps: seq<Step>, step: Step)
    ensures MachineStep(MachineState(Run(start, steps).slot), MachineState(Next(Run(start, steps), step).slot))
  {
    RunKeepsInv(start, steps);
    var s := Run(start, steps);
    match step
    case Create(id) => StatementStep(s, Insert(id));
    case Lease(id, token, ms, _) => StatementStep(s, Acquire(id, token, ms));
    case Reconcile(stmt) => if stmt.ReconcileForRetry? || stmt.ReconcileAsFailed? { StatementStep(s, stmt); }
    case Observe(o) => StatementStep(s, AttemptRow.CompleteAuthenticated(o));
    case ExecuteSql(g) => if g in s.workers && s.workers[g].wire.Some? { StatementStep(s, s.workers[g].wire.value); }
    case _ =>
  }

  predicate Terminal(w: Worker) {
    w.stage.Done? && (w.stage.outcome == RanAuthenticated || w.stage.outcome == RanFailed
        || w.stage.outcome == RanRetryExhausted)
  }

  /** A runner that reports a terminal outcome has made it durable, and at most one runner ever does. */
  lemma ReportedOutcomesAreDurable(start: int, steps: seq<Step>, g: int, h: int)
    requires var s := Run(start, steps);
             g in s.workers && h in s.workers && Terminal(s.workers[g]) && Terminal(s.workers[h])
    ensures var s := Run(start, steps);
            && g == h
            && s.slot.Some? && s.slot.value.generation == g + 1
            && s.slot.value.status == (if s.workers[g].stage.outcome == RanAuthenticated
                then AuthenticatedStatus else FailedStatus)
  {
    RunKeepsInv(start, steps);
  }
}
