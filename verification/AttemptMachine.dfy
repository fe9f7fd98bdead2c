// The pure session-authentication attempt: phases, failure classification and retry disposition.
module AttemptMachine {
  import opened Wrappers

  datatype Phase = NoInteraction | CredentialsMayHaveReached | SubmitMayHaveBeenDispatched

  datatype Cause =
    | TransientInfrastructure | ProtectedOrMfaDetected | IncompatibleFlowDetected
    | StructuralConfigurationError | OwnershipLostCause | UnknownFailure

  datatype FailureClass =
    | TransientPreInteraction | ProtectedOrMfa | IncompatibleFlow | StructuralConfiguration
    | OwnershipLost | InteractionOutcomeUncertain | UnclassifiedFailure

  datatype OperatorReason =
    | TemporaryAuthenticationProblem | ProtectedAuthenticationStepDetected
    | BankLoginConfigurationRequiresReview | AuthenticationAttemptRequiresReview

  datatype FailurePair = FailurePair(failureClass: FailureClass, operatorReason: OperatorReason)

  datatype Attempt =
    | Active(phase: Phase)
    | Authenticated(phase: Phase)
    | Failed(phase: Phase, failure: FailurePair)

  datatype Event = BeginCredentialInteraction | RecordSubmitBarrier | ConfirmAuthenticated | Fail(cause: Cause)

  datatype RetryDisposition = RetryAutomatically | DoNotRetry

  datatype TransitionError = InvalidTransition

  const MAX_RETRIES := 2

  function Rank(p: Phase): nat {
    match p
    case NoInteraction => 0
    case CredentialsMayHaveReached => 1
    case SubmitMayHaveBeenDispatched => 2
  }

  function Classify(phase: Phase, cause: Cause): FailurePair {
    match cause
    case TransientInfrastructure =>
      if phase == NoInteraction then FailurePair(TransientPreInteraction, TemporaryAuthenticationProblem)
      else FailurePair(InteractionOutcomeUncertain, AuthenticationAttemptRequiresReview)
    case ProtectedOrMfaDetected => FailurePair(ProtectedOrMfa, ProtectedAuthenticationStepDetected)
    case IncompatibleFlowDetected => FailurePair(IncompatibleFlow, BankLoginConfigurationRequiresReview)
    case StructuralConfigurationError => FailurePair(StructuralConfiguration, BankLoginConfigurationRequiresReview)
    case OwnershipLostCause => FailurePair(OwnershipLost, AuthenticationAttemptRequiresReview)
    case UnknownFailure => FailurePair(UnclassifiedFailure, AuthenticationAttemptRequiresReview)
  }

  function Transition(a: Attempt, e: Event): Result<Attempt, TransitionError> {
    if !a.Active? then Failure(InvalidTransition)
    else
      match e
      case BeginCredentialInteraction =>
        if a.phase == NoInteraction then Success(Active(CredentialsMayHaveReached)) else Failure(InvalidTransition)
      case RecordSubmitBarrier =>
        if a.phase == CredentialsMayHaveReached then Success(Active(SubmitMayHaveBeenDispatched))
        else Failure(InvalidTransition)
      case ConfirmAuthenticated => Success(Authenticated(a.phase))
      case Fail(cause) => Success(Failed(a.phase, Classify(a.phase, cause)))
  }

  /** `retriesConsumed` is a JavaScript number that passed `Number.isInteger`. */
  function Disposition(a: Attempt, retriesConsumed: int): RetryDisposition
    requires !a.Active?
  {
    if 0 <= retriesConsumed <= MAX_RETRIES && a.Failed? && a.phase == NoInteraction
       && a.failure.failureClass == TransientPreInteraction && retriesConsumed < MAX_RETRIES
    then RetryAutomatically else DoNotRetry
  }

  /** The pairs the durable record accepts, written as the table of the failure-pair parser. */
  predicate PermittedPair(p: FailurePair) {
    match p.failureClass
    case TransientPreInteraction => p.operatorReason == TemporaryAuthenticationProblem
    case ProtectedOrMfa => p.operatorReason == ProtectedAuthenticationStepDetected
    case IncompatibleFlow => p.operatorReason == BankLoginConfigurationRequiresReview
    case StructuralConfiguration => p.operatorReason == BankLoginConfigurationRequiresReview
    case OwnershipLost => p.operatorReason == AuthenticationAttemptRequiresReview
    case InteractionOutcomeUncertain => p.operatorReason == AuthenticationAttemptRequiresReview
    case UnclassifiedFailure => p.operatorReason == AuthenticationAttemptRequiresReview
  }

  ghost predicate Classifiable(phase: Phase, p: FailurePair) {
    exists cause :: Classify(phase, cause) == p
  }

  /** A cause that explains a pair at a phase, when there is one. */
  function CauseFor(p: FailurePair): Cause {
    match p.failureClass
    case TransientPreInteraction => TransientInfrastructure
    case ProtectedOrMfa => ProtectedOrMfaDetected
    case IncompatibleFlow => IncompatibleFlowDetected
    case StructuralConfiguration => StructuralConfigurationError
    case OwnershipLost => OwnershipLostCause
    case InteractionOutcomeUncertain => TransientInfrastructure
    case UnclassifiedFailure => UnknownFailure
  }

  /**
   * Exactly which failure pairs the pure machine can produce at a phase: a permitted pair, never "uncertain"
   * before the first credential and never "transient" after it.
   */
  lemma ClassifiableExactly(phase: Phase, p: FailurePair)
    ensures Classifiable(phase, p) <==>
            && PermittedPair(p)
            && !(phase == NoInteraction && p.failureClass == InteractionOutcomeUncertain)
            && !(phase != NoInteraction && p.failureClass == TransientPreInteraction)
    ensures Classifiable(phase, p) ==> Classify(phase, CauseFor(p)) == p
  {
    if PermittedPair(p)
       && !(phase == NoInteraction && p.failureClass == InteractionOutcomeUncertain)
       && !(phase != NoInteraction && p.failureClass == TransientPreInteraction)
    {
      assert Classify(phase, CauseFor(p)) == p;
    }
  }

  /** Which failures are retried automatically: transient ones before the first credential, while a retry is left. */
  lemma RetriedExactly(phase: Phase, cause: Cause, retriesConsumed: int)
    ensures Transition(Active(phase), Fail(cause)).Success?
    ensures Disposition(Transition(Active(phase), Fail(cause)).value, retriesConsumed) == RetryAutomatically <==>
              phase == NoInteraction && cause == TransientInfrastructure && 0 <= retriesConsumed < 2
  {
  }

  function RunEvents(a: Attempt, events: seq<Event>): Result<Attempt, TransitionError>
    decreases |events|
  {
    if events == [] then Success(a)
    else
      match Transition(a, events[0])
      case Failure(e) => Failure(e)
      case Success(b) => RunEvents(b, events[1..])
  }

  ghost function CountOf(e: Event, events: seq<Event>): nat {
    if events == [] then 0 else (if events[0] == e then 1 else 0) + CountOf(e, events[1..])
  }

  /** No accepted history of an attempt begins credentials twice or records the submit barrier twice. */
  lemma {:induction false} BarrierAtMostOnce(a: Attempt, events: seq<Event>)
    requires RunEvents(a, events).Success?
    ensures CountOf(RecordSubmitBarrier, events) + (if a.phase == SubmitMayHaveBeenDispatched then 1 else 0)
            == if RunEvents(a, events).value.phase == SubmitMayHaveBeenDispatched then 1 else 0
    ensures CountOf(BeginCredentialInteraction, events) + (if a.phase == NoInteraction then 0 else 1)
            == if RunEvents(a, events).value.phase == NoInteraction then 0 else 1
    decreases |events|
  {
    if events != [] {
      BarrierAtMostOnce(Transition(a, events[0]).value, events[1..]);
    }
  }
}
