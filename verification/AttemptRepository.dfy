// The attempt repository as an object over one row that anybody may update between two of its statements.
module AttemptRepository {
  import opened Wrappers
  import opened AttemptMachine
  import opened AttemptRow

  datatype LeaseResult =
    | LeaseAcquired(owner: Owner, record: Record)
    | LeaseHeld(record: Record)
    | ReconciliationRequired(record: Record)
    | LeaseTerminal(record: Record)
    | LeaseMissing | LeaseNotApplied | LeaseThrew

  datatype CreateResult =
    | Created(record: Record) | Found(record: Record) | IdentityConflict(existing: string) | CreateThrew

  datatype ReconcileResult = LeaseReconciled(record: Record) | ReconcileNotApplied

  /** How an owner stands, read after a statement of its own selected nothing. */
  datatype OwnerState = OwnerCurrent(record: Record) | OwnerMissing | OwnerTerminal | OwnerStale | OwnerLeaseExpired

  datatype RetryResult =
    | RetryGranted(count: int, record: Record) | RetriesExhausted | RetryNotApplied | RetryIneligible
    | RetryRefused(state: OwnerState)

  /**
   * `AlreadyDone` is "already started" or "already recorded"; `InvalidBarrier` is a barrier before credentials were
   * begun. A call that was done by none of these and whose owner is current is "not applied".
   */
  datatype OwnerResult =
    | Done(record: Record) | AlreadyDone(record: Record) | InvalidBarrier | NotDone(state: OwnerState) | OwnerThrew

  /** What a diagnosis says of the slot it was read from; no slot fits two of them. */
  predicate Diagnosed(state: OwnerState, slot: Option<Row>, o: Owner, now: int) {
    var r := RecordOf(slot);
    match state
    case OwnerMissing => r.None? || r.value.attemptId != o.attemptId
    case OwnerTerminal => r.Some? && r.value.attemptId == o.attemptId && !r.value.ActiveRecord?
    case OwnerStale =>
      && r.Some? && r.value.attemptId == o.attemptId && r.value.ActiveRecord?
      && (r.value.lease.None? || r.value.lease.value.token != o.token || r.value.generation != o.generation)
    case OwnerLeaseExpired =>
      && r.Some? && LapsedRecord(r.value, o.attemptId, now)
      && r.value.lease.value.token == o.token && r.value.generation == o.generation
    case OwnerCurrent(record) => r == Some(record) && Holds(slot, o, now)
  }

  /** How a refused lease is told apart: gone, free again, terminal, held or lapsed. */
  predicate LeaseRefused(r: LeaseResult, slot: Option<Row>, id: string, now: int) {
    var seen := RecordOf(slot);
    match r
    case LeaseMissing => seen.None? || seen.value.attemptId != id
    case LeaseNotApplied => seen.Some? && FreeRecord(seen.value, id)
    case LeaseTerminal(record) => seen == Some(record) && record.attemptId == id && !record.ActiveRecord?
    case LeaseHeld(record) =>
      && seen == Some(record) && record.attemptId == id && record.ActiveRecord? && record.lease.Some?
      && record.lease.value.expiresAt > now
    case ReconciliationRequired(record) => seen == Some(record) && LapsedRecord(record, id, now)
    case _ => false
  }

  ghost predicate Later(a: Option<Row>, t: int, b: Option<Row>, u: int) { Evolves(a, b) && t <= u }

  class AttemptRepository {
    var slot: Option<Row>
    var now: int

    ghost predicate Valid()
      reads this
    {
      SoundSlot(slot)
    }

    constructor (start: int)
      ensures Valid() && slot.None? && now == start
    {
      slot, now := None, start;
    }

    /** One SQL statement; the returned record is that of the row it updated or inserted. */
    method Execute(s: Statement) returns (returned: Option<Record>)
      requires Valid()
      modifies this`slot
      ensures Valid() && slot == Exec(s, old(slot), now) && Later(old(slot), now, slot, now)
      ensures returned.Some? <==> Applies(s, old(slot), now)
      ensures returned.Some? ==> slot.Some? && returned == Parse(slot.value)
    {
      ExecKeepsSound(s, slot, now);
      ExecEvolves(s, slot, now);
      if !Accepted(s) { return None; }
      if slot.None? {
        if !s.Insert? { return None; }
        slot := Some(Fresh(s.attemptId));
        return Parse(slot.value);
      }
      if !Selects(s, slot.value, now) { return None; }
      slot := Some(Updated(s, slot.value, now));
      return Parse(slot.value);
    }

    /** Any statements by anyone, and any passage of time. */
    method Interfere()
      requires Valid()
      modifies this
      ensures Valid() && Later(old(slot), old(now), slot, now)
    {
      var updates: nat :| true;
      for i := 0 to updates
        invariant Valid() && Later(old(slot), old(now), slot, now)
      {
        ghost var before := slot;
        var elapsed: nat :| true;
        now := now + elapsed;
        var s: Statement := *;
        var returned := Execute(s);
        EvolvesTransitive(old(slot), before, slot);
      }
    }

    method Elapse(ms: nat)
      requires Valid()
      modifies this`now
      ensures Valid() && now == old(now) + ms
    {
      now := now + ms;
    }

    /** Between two statements of one call anybody else may act, unless the call is quiet. */
    method Await(quiet: bool)
      requires Valid()
      modifies this
      ensures Valid() && Later(old(slot), old(now), slot, now)
      ensures quiet ==> slot == old(slot) && now == old(now)
    {
      if !quiet { Interfere(); }
    }

    method FindExact(id: string) returns (found: Option<Record>)
      requires Valid()
      ensures found == if slot.Some? && slot.value.attemptId == id then Parse(slot.value) else None
    {
      return if slot.Some? && slot.value.attemptId == id then Parse(slot.value) else None;
    }

    /**
     * The insert creates the row, or meets the unique (bank, run) that is already there. A blank identity fails the
     * table's CHECK, which comes before the unique index, and is thrown whatever the slot holds.
     */
    method GetOrCreate(id: string, quiet: bool) returns (r: CreateResult)
      requires Valid()
      modifies this
      ensures Valid() && Later(old(slot), old(now), slot, now)
      ensures r.CreateThrew? <==> !Nonblank(id)
      ensures r.Created? <==> old(slot).None? && Nonblank(id)
      ensures r.Created? ==> RecordOf(slot) == Some(r.record) == Some(ActiveRecord(id, NoInteraction, 0, 0, None))
      ensures r.Created? ==> now == old(now)
      ensures r.Found? ==> RecordOf(slot) == Some(r.record) && r.record.attemptId == id
      ensures r.IdentityConflict? ==> slot.Some? && slot.value.attemptId == r.existing != id
      ensures r.CreateThrew? || (quiet && !r.Created?) ==> slot == old(slot) && now == old(now)
    {
      if !Nonblank(id) { return CreateThrew; }
      var inserted := Execute(Insert(id));
      if inserted.Some? { return Created(inserted.value); }
      ghost var refused := slot;
      Await(quiet);
      EvolvesTransitive(old(slot), refused, slot);
      return if slot.value.attemptId == id then Found(Parse(slot.value).value)
          else IdentityConflict(slot.value.attemptId);
    }

    /** What the row says once a lease was not granted. */
    method ExplainLease(id: string) returns (r: LeaseResult)
      requires Valid()
      ensures LeaseRefused(r, slot, id, now)
    {
      if slot.None? || slot.value.attemptId != id { return LeaseMissing; }
      var record := Parse(slot.value).value;
      if !record.ActiveRecord? { return LeaseTerminal(record); }
      if record.lease.None? { return LeaseNotApplied; }
      return if record.lease.value.expiresAt > now then LeaseHeld(record) else ReconciliationRequired(record);
    }

    /** A fresh lease is always at the initial phase, under a generation nobody held before. */
    method AcquireLease(id: string, token: string, leaseMs: int, quiet: bool) returns (r: LeaseResult)
      requires Valid()
      modifies this
      ensures Valid() && Later(old(slot), old(now), slot, now)
      ensures r.LeaseThrew? <==> !Nonblank(token) || leaseMs <= 0
      ensures r.LeaseAcquired? <==>
                Nonblank(token) && leaseMs > 0 && RecordOf(old(slot)).Some? && FreeRecord(RecordOf(old(slot)).value, id)
      ensures r.LeaseAcquired? ==>
                && now == old(now) && RecordOf(slot) == Some(r.record)
                && r.owner == Owner(id, token, RecordOf(old(slot)).value.generation + 1)
                && r.record == ActiveRecord(id, NoInteraction, RecordOf(old(slot)).value.retryCount, r.owner.generation,
                                            Some(Lease(token, now + leaseMs)))
      ensures r.LeaseAcquired? ==> slot.Some? && Owns(slot.value, r.owner, now) && slot.value.phase == NoInteraction
      ensures r.LeaseAcquired? || r.LeaseThrew? || LeaseRefused(r, slot, id, now)
      ensures r.LeaseThrew? || (quiet && !r.LeaseAcquired?) ==> slot == old(slot) && now == old(now)
    {
      if !Nonblank(token) || leaseMs <= 0 { return LeaseThrew; }
      if slot.Some? { AppliesExactly(Acquire(id, token, leaseMs), slot.value, now); }
      var returned := Execute(Acquire(id, token, leaseMs));
      if returned.Some? {
        LeavesExactly(Acquire(id, token, leaseMs), old(slot).value, now);
        return LeaseAcquired(Owner(id, token, slot.value.generation), returned.value);
      }
      ghost var refused := slot;
      Await(quiet);
      EvolvesTransitive(old(slot), refused, slot);
      r := ExplainLease(id);
    }

    /** The diagnosis after an owner's statement selected nothing; except "current" it is final for that owner. */
    method DiagnoseOwner(o: Owner) returns (state: OwnerState)
      requires Valid()
      ensures Diagnosed(state, slot, o, now)
      ensures !state.OwnerCurrent? && slot.Some? && o.generation <= slot.value.generation ==> Powerless(slot, o, now)
    {
      if slot.None? || slot.value.attemptId != o.attemptId { return OwnerMissing; }
      var row := slot.value;
      if row.status != ActiveStatus { return OwnerTerminal; }
      if row.ownerToken != Some(o.token) || row.generation != o.generation { return OwnerStale; }
      return if row.leaseExpiresAt.value > now then OwnerCurrent(Parse(row).value) else OwnerLeaseExpired;
    }

    /** Renewal, begin, barrier and the two completions: one statement, and a diagnosis if it selected nothing. */
    method ByStatement(s: Statement, o: Owner, quiet: bool) returns (r: OwnerResult)
      requires Valid() && ByOwner(s, o) && !s.ClaimRetry? && !s.ExhaustRetries?
      modifies this
      ensures Valid() && Later(old(slot), old(now), slot, now)
      ensures r.OwnerThrew? <==> !Accepted(s)
      ensures r.Done? <==> Applies(s, old(slot), old(now))
      ensures r.Done? ==>
                && slot == Exec(s, old(slot), old(now)) && now == old(now) && slot.Some?
                && Parse(slot.value) == Some(r.record)
      ensures r.Done? || r.NotDone? || r.OwnerThrew?
      ensures r.NotDone? ==> Diagnosed(r.state, slot, o, now)
      ensures r.NotDone? && !r.state.OwnerCurrent? && slot.Some? && o.generation <= slot.value.generation ==>
                Powerless(slot, o, now)
      ensures r.OwnerThrew? || (quiet && !r.Done?) ==> slot == old(slot) && now == old(now)
    {
      if !Accepted(s) { return OwnerThrew; }
      var returned := Execute(s);
      if returned.Some? { return Done(returned.value); }
      ghost var refused := slot;
      Await(quiet);
      EvolvesTransitive(old(slot), refused, slot);
      var state := DiagnoseOwner(o);
      return NotDone(state);
    }

    method RenewLease(o: Owner, leaseMs: int, quiet: bool) returns (r: OwnerResult)
      requires Valid()
      modifies this
      ensures Valid() && Later(old(slot), old(now), slot, now)
      ensures r.OwnerThrew? <==> !Nonblank(o.token) || leaseMs <= 0
      ensures r.Done? <==> leaseMs > 0 && Holds(old(slot), o, old(now))
      ensures r.Done? ==>
                && slot == Exec(Renew(o, leaseMs), old(slot), old(now)) && now == old(now)
                && RecordOf(slot) == Some(r.record)
                && r.record == RecordOf(old(slot)).value.(lease := Some(Lease(o.token, now + leaseMs)))
      ensures r.Done? || r.OwnerThrew? || (r.NotDone? && Diagnosed(r.state, slot, o, now))
      ensures r.OwnerThrew? || (quiet && !r.Done?) ==> slot == old(slot) && now == old(now)
    {
      if slot.Some? { AppliesExactly(Renew(o, leaseMs), slot.value, now); }
      r := ByStatement(Renew(o, leaseMs), o, quiet);
      if r.Done? { LeavesExactly(Renew(o, leaseMs), old(slot).value, now); }
    }

    /** `Done` is "interaction started"; an owner still current after a refusal is told "already started". */
    method BeginCredentialInteraction(o: Owner, leaseMs: int, quiet: bool) returns (r: OwnerResult)
      requires Valid()
      modifies this
      ensures Valid() && Later(old(slot), old(now), slot, now)
      ensures r.OwnerThrew? <==> !Nonblank(o.token) || leaseMs <= 0
      ensures r.Done? <==>
                leaseMs > 0 && Holds(old(slot), o, old(now)) && RecordOf(old(slot)).value.phase == NoInteraction
      ensures r.Done? ==>
                && slot == Exec(BeginCredentials(o, leaseMs), old(slot), old(now)) && now == old(now)
                && RecordOf(slot) == Some(r.record)
                && r.record == RecordOf(old(slot)).value.(
                     phase := CredentialsMayHaveReached, lease := Some(Lease(o.token, now + leaseMs)))
      ensures r.AlreadyDone? <==> !r.Done? && !r.OwnerThrew? && Holds(slot, o, now)
      ensures r.AlreadyDone? ==> RecordOf(slot) == Some(r.record)
      ensures r.NotDone? ==> Diagnosed(r.state, slot, o, now) && !r.state.OwnerCurrent?
      ensures !r.InvalidBarrier?
      ensures r.OwnerThrew? || (quiet && !r.Done?) ==> slot == old(slot) && now == old(now)
    {
      if slot.Some? { AppliesExactly(BeginCredentials(o, leaseMs), slot.value, now); }
      r := ByStatement(BeginCredentials(o, leaseMs), o, quiet);
      if r.Done? { LeavesExactly(BeginCredentials(o, leaseMs), old(slot).value, now); }
      if r.NotDone? && r.state.OwnerCurrent? { r := AlreadyDone(r.state.record); }
    }

    /**
     * `Done` is "recorded": only the first barrier of the row's life, and only after credentials were begun. An owner
     * still current after a refusal is told whether the barrier is there already or came too early.
     */
    method RecordSubmitBarrier(o: Owner, leaseMs: int, quiet: bool) returns (r: OwnerResult)
      requires Valid()
      modifies this
      ensures Valid() && Later(old(slot), old(now), slot, now)
      ensures r.OwnerThrew? <==> !Nonblank(o.token) || leaseMs <= 0
      ensures r.Done? <==>
                && leaseMs > 0 && Holds(old(slot), o, old(now))
                && RecordOf(old(slot)).value.phase == CredentialsMayHaveReached
      ensures r.Done? ==>
                && slot == Exec(RecordBarrier(o, leaseMs), old(slot), old(now)) && now == old(now)
                && RecordOf(slot) == Some(r.record)
                && r.record == RecordOf(old(slot)).value.(
                     phase := SubmitMayHaveBeenDispatched, lease := Some(Lease(o.token, now + leaseMs)))
      ensures r.AlreadyDone? || r.InvalidBarrier? <==> !r.Done? && !r.OwnerThrew? && Holds(slot, o, now)
      ensures r.AlreadyDone? ==> RecordOf(slot) == Some(r.record) && r.record.phase == SubmitMayHaveBeenDispatched
      ensures r.InvalidBarrier? ==> RecordOf(slot).value.phase != SubmitMayHaveBeenDispatched
      ensures r.NotDone? ==> Diagnosed(r.state, slot, o, now) && !r.state.OwnerCurrent?
      ensures r.OwnerThrew? || (quiet && !r.Done?) ==> slot == old(slot) && now == old(now)
    {
      if slot.Some? { AppliesExactly(RecordBarrier(o, leaseMs), slot.value, now); }
      r := ByStatement(RecordBarrier(o, leaseMs), o, quiet);
      if r.Done? { LeavesExactly(RecordBarrier(o, leaseMs), old(slot).value, now); }
      if r.NotDone? && r.state.OwnerCurrent? {
        var current := r.state.record;
        r := if current.phase == SubmitMayHaveBeenDispatched then AlreadyDone(current) else InvalidBarrier;
      }
    }

    /** Ends the attempt at whatever phase it is, for the owner of a live lease and nobody else. */
    method CompleteAuthenticated(o: Owner, quiet: bool) returns (r: OwnerResult)
      requires Valid()
      modifies this
      ensures Valid() && Later(old(slot), old(now), slot, now)
      ensures r.Done? <==> Holds(old(slot), o, old(now))
      ensures r.Done? ==>
                && slot == Exec(Statement.CompleteAuthenticated(o), old(slot), old(now)) && now == old(now)
                && RecordOf(slot) == Some(r.record)
                && var was := RecordOf(old(slot)).value;
                   r.record == AuthenticatedRecord(o.attemptId, was.phase, was.retryCount, o.generation + 1, now)
      ensures r.Done? || (r.NotDone? && Diagnosed(r.state, slot, o, now))
      ensures quiet && !r.Done? ==> slot == old(slot) && now == old(now)
    {
      if slot.Some? { AppliesExactly(Statement.CompleteAuthenticated(o), slot.value, now); }
      r := ByStatement(Statement.CompleteAuthenticated(o), o, quiet);
      if r.Done? { LeavesExactly(Statement.CompleteAuthenticated(o), old(slot).value, now); }
    }

    /** A permitted failure ends the attempt at whatever phase it is; any other pair throws. */
    method CompleteFailed(o: Owner, f: FailurePair, quiet: bool) returns (r: OwnerResult)
      requires Valid()
      modifies this
      ensures Valid() && Later(old(slot), old(now), slot, now)
      ensures r.OwnerThrew? <==> !PermittedPair(f)
      ensures r.Done? <==> PermittedPair(f) && Holds(old(slot), o, old(now))
      ensures r.Done? ==>
                && slot == Exec(Statement.CompleteFailed(o, f), old(slot), old(now)) && now == old(now)
                && RecordOf(slot) == Some(r.record)
                && var was := RecordOf(old(slot)).value;
                   r.record == FailedRecord(o.attemptId, was.phase, was.retryCount, o.generation + 1, f, now)
      ensures r.Done? || r.OwnerThrew? || (r.NotDone? && Diagnosed(r.state, slot, o, now))
      ensures r.OwnerThrew? || (quiet && !r.Done?) ==> slot == old(slot) && now == old(now)
    {
      if slot.Some? { AppliesExactly(Statement.CompleteFailed(o, f), slot.value, now); }
      r := ByStatement(Statement.CompleteFailed(o, f), o, quiet);
      if r.Done? { LeavesExactly(Statement.CompleteFailed(o, f), old(slot).value, now); }
    }

    /** Consume one retry, or with none left fail the attempt: two statements that others may come between. */
    method ClaimRetry(o: Owner, quiet: bool) returns (r: RetryResult)
      requires Valid()
      modifies this
      ensures Valid() && Later(old(slot), old(now), slot, now)
      ensures r.RetryGranted? <==>
                && Holds(old(slot), o, old(now)) && RecordOf(old(slot)).value.phase == NoInteraction
                && RecordOf(old(slot)).value.retryCount < 2
      ensures r.RetryGranted? ==>
                && slot == Exec(Statement.ClaimRetry(o), old(slot), old(now)) && RecordOf(slot) == Some(r.record)
                && r.count == RecordOf(old(slot)).value.retryCount + 1
                && r.record == ActiveRecord(o.attemptId, NoInteraction, r.count, o.generation + 1, None)
      ensures r.RetriesExhausted? ==>
                && RecordOf(slot) == Some(FailedRecord(o.attemptId, NoInteraction, 2, o.generation + 1,
                                            FailurePair(TransientPreInteraction, TemporaryAuthenticationProblem), now))
      ensures r.RetryRefused? ==> Diagnosed(r.state, slot, o, now) && !r.state.OwnerCurrent?
      ensures r.RetryNotApplied? ==> Holds(slot, o, now) && RecordOf(slot).value.phase == NoInteraction
      ensures r.RetryIneligible? ==> Holds(slot, o, now) && RecordOf(slot).value.phase != NoInteraction
      ensures quiet ==>
                && (r.RetriesExhausted? <==>
                      && Holds(old(slot), o, old(now)) && RecordOf(old(slot)).value.phase == NoInteraction
                      && RecordOf(old(slot)).value.retryCount == 2)
                && (r.RetryGranted? || r.RetriesExhausted? || slot == old(slot)) && now == old(now)
    {
      if slot.Some? { AppliesExactly(Statement.ClaimRetry(o), slot.value, now); }
      var retried := Execute(Statement.ClaimRetry(o));
      if retried.Some? {
        LeavesExactly(Statement.ClaimRetry(o), old(slot).value, now);
        return RetryGranted(retried.value.retryCount, retried.value);
      }
      ghost var between := slot;
      Await(quiet);
      EvolvesTransitive(old(slot), between, slot);
      ghost var before := slot;
      var exhausted := Exhaust(o);
      EvolvesTransitive(old(slot), before, slot);
      if exhausted { return RetriesExhausted; }
      ghost var refused := slot;
      Await(quiet);
      EvolvesTransitive(old(slot), refused, slot);
      var state := DiagnoseOwner(o);
      if !state.OwnerCurrent? { return RetryRefused(state); }
      return if state.record.phase == NoInteraction then RetryNotApplied else RetryIneligible;
    }

    /** The second statement of a retry claim. */
    method Exhaust(o: Owner) returns (exhausted: bool)
      requires Valid()
      modifies this`slot
      ensures Valid() && Later(old(slot), now, slot, now)
      ensures exhausted <==>
                && Holds(old(slot), o, now) && RecordOf(old(slot)).value.phase == NoInteraction
                && RecordOf(old(slot)).value.retryCount == 2
      ensures exhausted ==>
                RecordOf(slot) == Some(FailedRecord(o.attemptId, NoInteraction, 2, o.generation + 1,
                                         FailurePair(TransientPreInteraction, TemporaryAuthenticationProblem), now))
      ensures !exhausted ==> slot == old(slot)
    {
      if slot.Some? { AppliesExactly(ExhaustRetries(o), slot.value, now); }
      var returned := Execute(ExhaustRetries(o));
      exhausted := returned.Some?;
      if exhausted { LeavesExactly(ExhaustRetries(o), old(slot).value, now); }
    }

    /** A lapsed lease is released for a retry or, once that is no longer safe, fails the attempt. */
    method ReconcileExpiredLease(id: string, quiet: bool) returns (r: ReconcileResult)
      requires Valid()
      modifies this
      ensures Valid() && Later(old(slot), old(now), slot, now)
      ensures r.LeaseReconciled? ==>
                && RecordOf(slot) == Some(r.record) && r.record.attemptId == id
                && slot.Some? && slot.value.ownerToken.None?
      // A lapsed lease before the first credential, with a retry left, always becomes that retry; after credentials
      // were begun it never does.
      ensures var was := RecordOf(old(slot));
              was.Some? && LapsedRecord(was.value, id, old(now)) && was.value.phase == NoInteraction
              && was.value.retryCount < 2 ==>
                && r == LeaseReconciled(ActiveRecord(id, NoInteraction, was.value.retryCount + 1,
                                                     was.value.generation + 1, None))
                && slot == Exec(ReconcileForRetry(id), old(slot), old(now)) && now == old(now)
      ensures r.LeaseReconciled? && r.record.ActiveRecord? ==>
                && old(slot).Some? && LapsedRecord(RecordOf(old(slot)).value, id, old(now))
                && RecordOf(old(slot)).value.phase == NoInteraction && RecordOf(old(slot)).value.retryCount < 2
      ensures r.LeaseReconciled? && !r.record.ActiveRecord? ==>
                && r.record.FailedRecord? && r.record.terminalAt == now
                && r.record.failure == Classify(r.record.phase, TransientInfrastructure)
      ensures quiet ==>
                && (r.LeaseReconciled? <==>
                      RecordOf(old(slot)).Some? && LapsedRecord(RecordOf(old(slot)).value, id, old(now)))
                && (r.ReconcileNotApplied? ==> slot == old(slot)) && now == old(now)
                && (r.LeaseReconciled? && r.record.FailedRecord? ==>
                      var was := RecordOf(old(slot)).value;
                      r.record == FailedRecord(id, was.phase, was.retryCount, was.generation + 1,
                                               Classify(was.phase, TransientInfrastructure), now))
    {
      if slot.Some? { AppliesExactly(ReconcileForRetry(id), slot.value, now); }
      var retried := Execute(ReconcileForRetry(id));
      if retried.Some? {
        LeavesExactly(ReconcileForRetry(id), old(slot).value, now);
        return LeaseReconciled(retried.value);
      }
      ghost var between := slot;
      Await(quiet);
      EvolvesTransitive(old(slot), between, slot);
      ghost var before := slot;
      r := FailLapsed(id);
      EvolvesTransitive(old(slot), before, slot);
    }

    /** The second statement of a reconciliation. */
    method FailLapsed(id: string) returns (r: ReconcileResult)
      requires Valid()
      modifies this`slot
      ensures Valid() && Later(old(slot), now, slot, now)
      ensures r.LeaseReconciled? <==>
                && RecordOf(old(slot)).Some? && LapsedRecord(RecordOf(old(slot)).value, id, now)
                && (RecordOf(old(slot)).value.phase != NoInteraction || RecordOf(old(slot)).value.retryCount == 2)
      ensures r.LeaseReconciled? ==>
                && RecordOf(slot) == Some(r.record)
                && var was := RecordOf(old(slot)).value;
                   r.record == FailedRecord(id, was.phase, was.retryCount, was.generation + 1,
                                            Classify(was.phase, TransientInfrastructure), now)
      ensures r.ReconcileNotApplied? ==> slot == old(slot)
    {
      if slot.Some? { AppliesExactly(ReconcileAsFailed(id), slot.value, now); }
      var failed := Execute(ReconcileAsFailed(id));
      if failed.None? { return ReconcileNotApplied; }
      LeavesExactly(ReconcileAsFailed(id), old(slot).value, now);
      return LeaseReconciled(failed.value);
    }
  }
}
