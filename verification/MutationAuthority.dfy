// The single-use mutation authority: which repository call each phase permits, what is sent, and how a reply
// moves the handle. Shared by the interleaved model and by the handle object.
module MutationAuthority {
  import opened Wrappers
  import opened AttemptMachine
  import opened AttemptRow

  datatype HandlePhase = Leased | InteractionStarted | SubmitBarrierRecorded | Consumed

  datatype Call =
    | BeginCall | RenewCall | BarrierCall
    | RetryCall | AuthenticatedCall | FailedCall(failure: FailurePair)

  /** What comes back from the repository; every diagnosis of a statement that selected nothing is `Refused`. */
  datatype Reply = Applied(record: Record) | Exhausted | Refused

  datatype Verdict = Authorized | Completed | RetryClaimed | RetryExhausted | NotAuthorized

  /** Calls that spend the handle as soon as they are sent. */
  predicate Finishes(call: Call) { call.RetryCall? || call.AuthenticatedCall? || call.FailedCall? }

  predicate Permits(phase: HandlePhase, call: Call) {
    match call
    case BeginCall => phase == Leased
    case BarrierCall => phase == InteractionStarted
    case RetryCall => phase == Leased
    case _ => phase != Consumed
  }

  function PhaseOnSend(phase: HandlePhase, call: Call): HandlePhase {
    if Finishes(call) then Consumed else phase
  }

  function StatementFor(call: Call, o: Owner, leaseMs: int): Statement {
    match call
    case BeginCall => BeginCredentials(o, leaseMs)
    case RenewCall => Renew(o, leaseMs)
    case BarrierCall => RecordBarrier(o, leaseMs)
    case RetryCall => ClaimRetry(o)
    case AuthenticatedCall => CompleteAuthenticated(o)
    case FailedCall(f) => CompleteFailed(o, f)
  }

  /** The interaction phase a handle in a live phase believes the row to be in. */
  function Believed(phase: HandlePhase): Phase
    requires phase != Consumed
  {
    match phase
    case Leased => NoInteraction
    case InteractionStarted => CredentialsMayHaveReached
    case SubmitBarrierRecorded => SubmitMayHaveBeenDispatched
  }

  predicate ConfirmsActive(r: Record, o: Owner, p: Phase) {
    r.ActiveRecord? && r.phase == p && r.attemptId == o.attemptId && r.generation == o.generation
    && r.lease.Some? && r.lease.value.token == o.token
  }

  /** A completion is confirmed by either outcome; that it is the one asked for is up to the repository. */
  predicate ConfirmsTerminal(r: Record, o: Owner) {
    !r.ActiveRecord? && r.attemptId == o.attemptId && r.generation == o.generation + 1
  }

  /** The handle's own validation of a reply to a call it sent in `phase`. */
  predicate Confirms(phase: HandlePhase, call: Call, o: Owner, reply: Reply) {
    match call
    case BeginCall => reply.Applied? && ConfirmsActive(reply.record, o, CredentialsMayHaveReached)
    case BarrierCall => reply.Applied? && ConfirmsActive(reply.record, o, SubmitMayHaveBeenDispatched)
    case RenewCall => phase != Consumed && reply.Applied? && ConfirmsActive(reply.record, o, Believed(phase))
    case RetryCall =>
      reply.Applied? && reply.record.ActiveRecord? && reply.record.attemptId == o.attemptId
      && reply.record.lease.None? && reply.record.generation == o.generation + 1
      && 1 <= reply.record.retryCount <= 2
    case AuthenticatedCall => reply.Applied? && ConfirmsTerminal(reply.record, o)
    case FailedCall(f) =>
      reply.Applied? && ConfirmsTerminal(reply.record, o) && (reply.record.FailedRecord? ==> reply.record.failure == f)
  }

  function VerdictOn(phase: HandlePhase, call: Call, o: Owner, reply: Reply): Verdict {
    if call.RetryCall? && reply.Exhausted? then RetryExhausted
    else if !Confirms(phase, call, o, reply) then NotAuthorized
    else if call.RetryCall? then RetryClaimed
    else if Finishes(call) then Completed
    else Authorized
  }

  /**
   * What the handle makes of a reply, whatever it is, exactly: authorized by the active record of this very lease at
   * the phase the call leads to, completed by a terminal one under the closing generation, a retry claimed by a
   * released one with one or two retries consumed - and consumed by everything but an authorization.
   */
  lemma VerdictExactly(phase: HandlePhase, call: Call, o: Owner, reply: Reply)
    requires Permits(phase, call)
    ensures var v, next := VerdictOn(PhaseOnSend(phase, call), call, o, reply),
                           PhaseOnReply(PhaseOnSend(phase, call), call, o, reply);
            var mine := reply.Applied? && reply.record.attemptId == o.attemptId;
            var leadsTo := match call
                           case BeginCall => InteractionStarted
                           case BarrierCall => SubmitBarrierRecorded
                           case _ => phase;
            && (v == Authorized <==>
                  && call in {BeginCall, BarrierCall, RenewCall} && mine && reply.record.ActiveRecord?
                  && reply.record.generation == o.generation && reply.record.lease.Some?
                  && reply.record.lease.value.token == o.token && reply.record.phase == Believed(leadsTo))
            && (v == Completed <==>
                  && (call.AuthenticatedCall? || call.FailedCall?) && mine && !reply.record.ActiveRecord?
                  && reply.record.generation == o.generation + 1
                  && (call.FailedCall? && reply.record.FailedRecord? ==> reply.record.failure == call.failure))
            && (v == RetryClaimed <==>
                  && call.RetryCall? && mine && reply.record.ActiveRecord? && reply.record.lease.None?
                  && reply.record.generation == o.generation + 1 && reply.record.retryCount in {1, 2})
            && (v == RetryExhausted <==> call.RetryCall? && reply == Exhausted)
            && next == if v == Authorized then leadsTo else Consumed
  {
  }

  /** A confirmed begin, renewal or barrier advances; anything else poisons the handle. */
  function PhaseOnReply(phase: HandlePhase, call: Call, o: Owner, reply: Reply): HandlePhase {
    if Finishes(call) || !Confirms(phase, call, o, reply) then Consumed
    else
      match call
      case BeginCall => InteractionStarted
      case BarrierCall => SubmitBarrierRecorded
      case _ => phase
  }
}
