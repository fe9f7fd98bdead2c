// The mutation authority as objects: the opaque grant, which can be claimed once, and the claimed handle, whose calls
// each wait for the repository while everybody else goes on.
module AuthorityHandle {
  import opened Wrappers
  import opened AttemptMachine
  import A = AttemptRow
  import opened AttemptRepository
  import opened MutationAuthority

  datatype HandleResult =
    | HandleAuthorized | HandleCompleted | HandleRetryClaimed | HandleRetryExhausted
    | InvalidSequence | Unavailable | HandleOwnershipLost

  /** The row has been at `p`, or further, under this owner's lease: a fact no later statement can undo. */
  predicate Recorded(slot: Option<A.Row>, o: A.Owner, p: Phase) {
    && slot.Some? && slot.value.attemptId == o.attemptId
    && Rank(p) <= Rank(slot.value.phase)
    && (p != NoInteraction ==> A.Anchor(slot.value) == o.generation)
  }

  lemma RecordedStays(a: Option<A.Row>, b: Option<A.Row>, o: A.Owner, p: Phase)
    requires Recorded(a, o, p) && A.Evolves(a, b)
    ensures Recorded(b, o, p)
  {
  }

  /** What a finished handle stands for in the row. */
  predicate Finished(slot: Option<A.Row>, o: A.Owner, call: Call, r: HandleResult) {
    && (r == HandleCompleted ==>
          && slot.Some? && slot.value.attemptId == o.attemptId && slot.value.generation == o.generation + 1
          && (call.AuthenticatedCall? ==> slot.value.status == A.AuthenticatedStatus)
          && (call.FailedCall? ==>
                slot.value.status == A.FailedStatus && slot.value.failureClass == Some(call.failure.failureClass)
                && slot.value.operatorReason == Some(call.failure.operatorReason)))
    && (r == HandleRetryExhausted ==>
          slot.Some? && slot.value.attemptId == o.attemptId && slot.value.status == A.FailedStatus
              && slot.value.retryCount == 2
          && slot.value.operatorReason == Some(TemporaryAuthenticationProblem))
    && (r == HandleRetryClaimed ==> slot.Some? && slot.value.generation > o.generation && slot.value.retryCount >= 1)
  }

  /** What the repository's answer to an owner's statement is to the handle. */
  function ReplyOf(r: OwnerResult): Reply { if r.Done? then Applied(r.record) else Refused }

  function Refusal(r: OwnerResult): HandleResult {
    if r.NotDone? && (r.state.OwnerStale? || r.state.OwnerLeaseExpired?) then HandleOwnershipLost else Unavailable
  }

  /** The attempt is active, but somebody else's by now, or its lease has run out. */
  predicate LostOwnership(slot: Option<A.Row>, o: A.Owner, now: int) {
    var r := A.RecordOf(slot);
    r.Some? && r.value.ActiveRecord? && r.value.attemptId == o.attemptId && !A.HeldBy(r.value, o, now)
  }

  /** The owner holds the attempt at the phase its handle believes in. */
  predicate HoldsAt(slot: Option<A.Row>, o: A.Owner, now: int, p: Phase) {
    A.Holds(slot, o, now) && A.RecordOf(slot).value.phase == p
  }

  class Authority {
    const repository: AttemptRepository
    const owner: A.Owner
    const leaseMs: int
    var claimed: bool

    constructor (repository: AttemptRepository, owner: A.Owner, leaseMs: int)
      ensures this.repository == repository && this.owner == owner && this.leaseMs == leaseMs && !claimed
    {
      this.repository, this.owner, this.leaseMs, claimed := repository, owner, leaseMs, false;
    }

    /** Only the first claim gets a handle, and that handle starts in phase "leased". */
    method Claim() returns (handle: ClaimedAuthority?)
      modifies this
      ensures claimed
      ensures handle == null <==> old(claimed)
      ensures handle != null ==>
                fresh(handle) && handle.repository == repository && handle.owner == owner && handle.leaseMs == leaseMs
                && handle.phase == Leased && !handle.pending
    {
      if claimed { return null; }
      claimed := true;
      handle := new ClaimedAuthority(repository, owner, leaseMs);
    }
  }

  class ClaimedAuthority {
    const repository: AttemptRepository
    const owner: A.Owner
    const leaseMs: int
    var phase: HandlePhase
    var pending: bool

    constructor (repository: AttemptRepository, owner: A.Owner, leaseMs: int)
      ensures this.repository == repository && this.owner == owner && this.leaseMs == leaseMs
      ensures phase == Leased && !pending
    {
      this.repository, this.owner, this.leaseMs := repository, owner, leaseMs;
      phase, pending := Leased, false;
    }

    ghost predicate Valid()
      reads this, repository
    {
      repository.Valid()
    }

    /** The repository call a begin, renewal or barrier sends. */
    method Ask(call: Call, quiet: bool) returns (r: OwnerResult)
      requires Valid() && !Finishes(call)
      modifies repository
      ensures Valid() && Later(old(repository.slot), old(repository.now), repository.slot, repository.now)
      ensures r.Done? && r.record.ActiveRecord? && r.record.phase != NoInteraction
              && r.record.attemptId == owner.attemptId && r.record.generation == owner.generation ==>
                Recorded(repository.slot, owner, r.record.phase)
      ensures r.OwnerThrew? <==> !Nonblank(owner.token) || leaseMs <= 0
      ensures r.Done? <==>
                && leaseMs > 0 && A.Holds(old(repository.slot), owner, old(repository.now))
                && var p := A.RecordOf(old(repository.slot)).value.phase;
                   (call.BeginCall? ==> p == NoInteraction) && (call.BarrierCall? ==> p == CredentialsMayHaveReached)
      ensures r.Done? ==>
                && repository.now == old(repository.now) && A.RecordOf(repository.slot) == Some(r.record)
                && r.record == Extended(A.RecordOf(old(repository.slot)).value, call, repository.now)
      ensures r.NotDone? ==> Diagnosed(r.state, repository.slot, owner, repository.now)
      ensures r.AlreadyDone? || r.InvalidBarrier? ==> A.Holds(repository.slot, owner, repository.now)
      ensures quiet && !r.Done? ==> repository.slot == old(repository.slot) && repository.now == old(repository.now)
    {
      if call.BeginCall? {
        r := repository.BeginCredentialInteraction(owner, leaseMs, quiet);
      } else if call.BarrierCall? {
        r := repository.RecordSubmitBarrier(owner, leaseMs, quiet);
      } else {
        r := repository.RenewLease(owner, leaseMs, quiet);
      }
    }

    /** The active record after the call went through: at its phase, on a lease that has just begun. */
    function Extended(was: A.Record, call: Call, now: int): A.Record
      requires was.ActiveRecord?
    {
      was.(phase := if call.BeginCall? then CredentialsMayHaveReached
                    else if call.BarrierCall? then SubmitMayHaveBeenDispatched else was.phase,
           lease := Some(A.Lease(owner.token, now + leaseMs)))
    }

    /**
     * Begin, renewal or barrier: authorized only on a confirmed reply, poisoned by anything else. A quiet call is
     * authorized exactly while the owner holds the attempt at the phase the handle is in.
     */
    method Run(call: Call, quiet: bool) returns (r: HandleResult)
      requires Valid() && !Finishes(call)
      modifies this, repository
      ensures Valid() && Later(old(repository.slot), old(repository.now), repository.slot, repository.now)
      ensures r == InvalidSequence <==> !Permits(old(phase), call) || old(pending)
      ensures r == InvalidSequence ==>
                && phase == old(phase) && pending == old(pending)
                && repository.slot == old(repository.slot) && repository.now == old(repository.now)
      ensures r != InvalidSequence ==> !pending && (phase == Consumed <==> r != HandleAuthorized)
      ensures r == HandleAuthorized ==>
                && phase == (if call.BeginCall? then InteractionStarted else if call.BarrierCall?
                    then SubmitBarrierRecorded else old(phase))
                && (phase != Leased ==> Recorded(repository.slot, owner, Believed(phase)))
      ensures r in {HandleAuthorized, InvalidSequence, Unavailable, HandleOwnershipLost}
      ensures quiet && r != InvalidSequence ==>
                && (r == HandleAuthorized <==>
                      && leaseMs > 0
                      && HoldsAt(old(repository.slot), owner, old(repository.now), Believed(old(phase))))
                && (r == HandleOwnershipLost <==>
                      && leaseMs > 0 && Nonblank(owner.token)
                      && LostOwnership(old(repository.slot), owner, old(repository.now)))
                && repository.now == old(repository.now)
                && (r == HandleAuthorized ==>
                      A.RecordOf(repository.slot)
                      == Some(Extended(A.RecordOf(old(repository.slot)).value, call, repository.now)))
    {
      ghost var start, began := repository.slot, repository.now;
      if !Permits(phase, call) || pending {
        assert Later(start, began, repository.slot, repository.now);
        return InvalidSequence;
      }
      pending := true;
      repository.Await(quiet);
      ghost var between := repository.slot;
      var answer := Ask(call, quiet);
      A.EvolvesTransitive(start, between, repository.slot);
      pending := false;
      var replyLost := Fails(quiet);
      if replyLost || answer.OwnerThrew? {
        phase := Consumed;
        return Unavailable;
      }
      if !Confirms(phase, call, owner, ReplyOf(answer)) {
        phase := Consumed;
        return Refusal(answer);
      }
      phase := PhaseOnReply(phase, call, owner, ReplyOf(answer));
      return HandleAuthorized;
    }

    /** The repository call a completion sends. */
    method AskToFinish(call: Call, quiet: bool) returns (r: OwnerResult)
      requires Valid() && (call.AuthenticatedCall? || call.FailedCall?)
      modifies repository
      ensures Valid() && Later(old(repository.slot), old(repository.now), repository.slot, repository.now)
      ensures r.OwnerThrew? <==> call.FailedCall? && !PermittedPair(call.failure)
      ensures r.Done? <==>
                && A.Holds(old(repository.slot), owner, old(repository.now))
                && (call.FailedCall? ==> PermittedPair(call.failure))
      ensures r.Done? ==>
                && repository.now == old(repository.now) && A.RecordOf(repository.slot) == Some(r.record)
                && r.record == Ended(A.RecordOf(old(repository.slot)).value, call, repository.now)
      ensures r.Done? <==> Confirms(Consumed, call, owner, ReplyOf(r))
      ensures r.Done? ==> Finished(repository.slot, owner, call, HandleCompleted)
      ensures Refusal(r) == HandleOwnershipLost <==>
                !r.Done? && !r.OwnerThrew? && LostOwnership(repository.slot, owner, repository.now)
      ensures quiet && !r.Done? ==> repository.slot == old(repository.slot) && repository.now == old(repository.now)
    {
      if call.AuthenticatedCall? {
        r := repository.CompleteAuthenticated(owner, quiet);
      } else {
        r := repository.CompleteFailed(owner, call.failure, quiet);
      }
    }

    /** The terminal record after a completion: at the phase it had reached, under the closing generation. */
    function Ended(was: A.Record, call: Call, now: int): A.Record
      requires was.ActiveRecord? && (call.AuthenticatedCall? || call.FailedCall?)
    {
      if call.AuthenticatedCall?
      then A.AuthenticatedRecord(owner.attemptId, was.phase, was.retryCount, owner.generation + 1, now)
      else A.FailedRecord(owner.attemptId, was.phase, was.retryCount, owner.generation + 1, call.failure, now)
    }

    /**
     * A completion or a retry spends the handle as it is sent, whatever comes back. A quiet completion goes through
     * exactly while the owner holds the attempt, at any phase.
     */
    method Complete(call: Call, quiet: bool) returns (r: HandleResult)
      requires Valid() && (call.AuthenticatedCall? || call.FailedCall?)
      modifies this, repository
      ensures Valid() && Later(old(repository.slot), old(repository.now), repository.slot, repository.now)
      ensures r == InvalidSequence <==> old(phase) == Consumed || old(pending)
      ensures r == InvalidSequence ==>
                && phase == old(phase) && pending == old(pending)
                && repository.slot == old(repository.slot)
      ensures r != InvalidSequence ==> phase == Consumed && !pending
      ensures Finished(repository.slot, owner, call, r)
      ensures r in {HandleCompleted, InvalidSequence, Unavailable, HandleOwnershipLost}
      ensures quiet && r != InvalidSequence ==>
                && (r == HandleCompleted <==>
                      && A.Holds(old(repository.slot), owner, old(repository.now))
                      && (call.FailedCall? ==> PermittedPair(call.failure)))
                && (r == HandleOwnershipLost <==>
                      && LostOwnership(old(repository.slot), owner, old(repository.now))
                      && (call.FailedCall? ==> PermittedPair(call.failure)))
                && repository.now == old(repository.now)
                && (r == HandleCompleted ==>
                      A.RecordOf(repository.slot)
                      == Some(Ended(A.RecordOf(old(repository.slot)).value, call, repository.now)))
    {
      ghost var start := repository.slot;
      if phase == Consumed || pending { return InvalidSequence; }
      phase, pending := Consumed, true;
      repository.Await(quiet);
      ghost var between := repository.slot;
      var answer := AskToFinish(call, quiet);
      A.EvolvesTransitive(start, between, repository.slot);
      pending := false;
      var replyLost := Fails(quiet);
      if replyLost { return Unavailable; }
      return if Confirms(phase, call, owner, ReplyOf(answer)) then HandleCompleted else Refusal(answer);
    }

    /** The repository call a retry sends, and what the handle makes of the answer. */
    method AskToRetry(quiet: bool) returns (r: HandleResult)
      requires Valid()
      modifies repository
      ensures Valid() && Later(old(repository.slot), old(repository.now), repository.slot, repository.now)
      ensures Finished(repository.slot, owner, RetryCall, r)
      ensures r in {HandleRetryClaimed, HandleRetryExhausted, HandleOwnershipLost, Unavailable}
      ensures r == HandleRetryClaimed <==>
                && HoldsAt(old(repository.slot), owner, old(repository.now), NoInteraction)
                && A.RecordOf(old(repository.slot)).value.retryCount < 2
      ensures quiet ==>
                && (r == HandleRetryExhausted <==>
                      && HoldsAt(old(repository.slot), owner, old(repository.now), NoInteraction)
                      && A.RecordOf(old(repository.slot)).value.retryCount == 2)
                && (r == HandleOwnershipLost <==> LostOwnership(old(repository.slot), owner, old(repository.now)))
    {
      var answer := repository.ClaimRetry(owner, quiet);
      match answer
      case RetriesExhausted => return HandleRetryExhausted;
      case RetryGranted(_, record) =>
        return if Confirms(Consumed, RetryCall, owner, Applied(record)) then HandleRetryClaimed else Unavailable;
      case RetryRefused(state) =>
        return if state.OwnerStale? || state.OwnerLeaseExpired? then HandleOwnershipLost else Unavailable;
      case _ => return Unavailable;
    }

    /** A quiet retry is claimed, or found exhausted, exactly before any interaction and by the retries consumed. */
    method ClaimRetry(quiet: bool) returns (r: HandleResult)
      requires Valid()
      modifies this, repository
      ensures Valid() && Later(old(repository.slot), old(repository.now), repository.slot, repository.now)
      ensures r == InvalidSequence <==> old(phase) != Leased || old(pending)
      ensures r == InvalidSequence ==>
                && phase == old(phase) && pending == old(pending)
                && repository.slot == old(repository.slot)
      ensures r != InvalidSequence ==> phase == Consumed && !pending
      ensures Finished(repository.slot, owner, RetryCall, r)
      ensures r != HandleCompleted && r != HandleAuthorized
      ensures quiet && r != InvalidSequence ==>
                && (r == HandleRetryClaimed <==>
                      && HoldsAt(old(repository.slot), owner, old(repository.now), NoInteraction)
                      && A.RecordOf(old(repository.slot)).value.retryCount < 2)
                && (r == HandleRetryExhausted <==>
                      && HoldsAt(old(repository.slot), owner, old(repository.now), NoInteraction)
                      && A.RecordOf(old(repository.slot)).value.retryCount == 2)
                && (r == HandleOwnershipLost <==> LostOwnership(old(repository.slot), owner, old(repository.now)))
    {
      ghost var start := repository.slot;
      if phase != Leased || pending { return InvalidSequence; }
      phase, pending := Consumed, true;
      repository.Await(quiet);
      ghost var between := repository.slot;
      r := AskToRetry(quiet);
      A.EvolvesTransitive(start, between, repository.slot);
      pending := false;
      var replyLost := Fails(quiet);
      if replyLost { r := Unavailable; }
    }
  }
}
