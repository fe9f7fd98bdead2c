// The mint of mutation authorities: read, probe, create, lease, and go around once more for a lapsed lease.
//
// Every call may throw or answer nonsense, which the code treats alike; a probe may say anything; the caller's signal
// may be aborted at any await; and everybody else updates the row before each call. A quiet call meets none of that,
// and then the portal gives every probe the same answer.
module AuthorityMint {
  import opened Wrappers
  import opened AttemptMachine
  import A = AttemptRow
  import opened AttemptRepository
  import opened AuthorityHandle
  import opened CoordinatorReplies
  import R = ObservedRestoration

  /** Whether this very attempt is durably authenticated. Terminal rows never change, so this is for ever. */
  predicate DurablyAuthenticated(slot: Option<A.Row>, id: string) {
    slot.Some? && slot.value.attemptId == id && slot.value.status == A.AuthenticatedStatus
  }

  predicate DurablyFailed(slot: Option<A.Row>, id: string, reason: OperatorReason) {
    slot.Some? && slot.value.attemptId == id && slot.value.status == A.FailedStatus
        && slot.value.operatorReason == Some(reason)
  }

  predicate ValidRequest(key: R.Key, id: string, token: string, leaseMs: int) {
    Nonblank(key.bankCode) && Nonblank(key.runId) && Nonblank(id) && Nonblank(token) && leaseMs > 0
  }

  /** A verdict about the attempt itself must be in the row. */
  predicate Founded(r: SessionState, slot: Option<A.Row>, id: string) {
    match r
    case SessionAuthenticated(_) => DurablyAuthenticated(slot, id)
    case NeedsOperatorAction(FromAttempt(reason)) => DurablyFailed(slot, id, reason)
    case NeedsOperatorAction(IdentityConflictReview) => slot.Some? && slot.value.attemptId != id
    case _ => true
  }

  /** Answers about the expiry episode come only from a coordination that restores one. */
  predicate OnlyRestoring(r: SessionState, restores: bool) {
    r.MutationInProgress? || r == NeedsOperatorAction(RestorationStateConflict) ==> restores
  }

  /** A decision read off the row, or a reason to come back later. */
  predicate Settled(r: SessionState, slot: Option<A.Row>, id: string) {
    && Founded(r, slot, id) && OnlyRestoring(r, false)
    && (r == SessionAuthenticated(ExistingRow) || r.LeaseInProgress? || r.RetryLater? || r.NeedsOperatorAction?)
  }

  // ---- the row of this attempt ------------------------------------------------------------------------------

  /** What is read under this attempt identity. */
  function Mine(slot: Option<A.Row>, id: string): Option<A.Record> {
    if slot.Some? && slot.value.attemptId == id then A.Parse(slot.value) else None
  }

  predicate OthersRow(slot: Option<A.Row>, id: string) { slot.Some? && slot.value.attemptId != id }

  predicate Free(slot: Option<A.Row>, id: string) { Mine(slot, id).Some? && A.FreeRecord(Mine(slot, id).value, id) }

  predicate LeasedTo(slot: Option<A.Row>, id: string) {
    Mine(slot, id).Some? && Mine(slot, id).value.ActiveRecord? && Mine(slot, id).value.lease.Some?
  }

  predicate LapsedLease(slot: Option<A.Row>, id: string, now: int) {
    Mine(slot, id).Some? && A.LapsedRecord(Mine(slot, id).value, id, now)
  }

  predicate Over(slot: Option<A.Row>, id: string) { Mine(slot, id).Some? && !Mine(slot, id).value.ActiveRecord? }

  /** The answer that a terminal attempt stands for. */
  predicate SaysOver(r: SessionState, slot: Option<A.Row>, id: string) {
    match Mine(slot, id)
    case Some(AuthenticatedRecord(_, _, _, _, _)) => r == SessionAuthenticated(ExistingRow)
    case Some(FailedRecord(_, _, _, _, f, _)) => r == NeedsOperatorAction(FromAttempt(f.operatorReason))
    case _ => false
  }

  /** The attempt is leased to `o`, at the initial phase, on a lease that has just begun. */
  predicate JustLeased(slot: Option<A.Row>, now: int, o: A.Owner, retries: int, leaseMs: int) {
    A.RecordOf(slot)
    == Some(A.ActiveRecord(o.attemptId, NoInteraction, retries, o.generation, Some(A.Lease(o.token, now + leaseMs))))
  }

  /** An authority in hand: unclaimed, on a lease this call took, before any credential interaction. */
  ghost predicate Minted(r: SessionState, repo: AttemptRepository, id: string, token: string)
    reads repo, if r.AuthenticationRequired? then {r.authority} else {}
  {
    r.AuthenticationRequired? ==>
      && !r.authority.claimed && r.authority.repository == repo
      && repo.slot.Some? && r.authority.owner == A.Owner(id, token, repo.slot.value.generation)
      && A.Owns(repo.slot.value, r.authority.owner, repo.now) && repo.slot.value.phase == NoInteraction
  }

  // ---- the calls, each told as a reply ----------------------------------------------------------------------

  /** A reply about the row tells what the row says. */
  predicate Told(r: Reply, slot: Option<A.Row>, id: string, now: int) {
    match r
    case Read(found) => Mine(slot, id) == found
    case Created(record) => Mine(slot, id) == Some(record)
    case Conflict => OthersRow(slot, id)
    case LeaseIsHeld => LeasedTo(slot, id) && !LapsedLease(slot, id, now)
    case LeaseIsTerminal(record) => Mine(slot, id) == Some(record) && !record.ActiveRecord?
    case LeaseUnavailable => Mine(slot, id).None? || Free(slot, id)
    case LeaseLapsed => LapsedLease(slot, id, now)
    case LeaseReleased(record) => Mine(slot, id) == Some(record)
    case AttemptCompleted(record) => Mine(slot, id) == Some(record)
    case _ => true
  }

  method ReadRow(repo: AttemptRepository, id: string, quiet: bool) returns (reply: Reply)
    requires repo.Valid()
    modifies repo
    ensures repo.Valid() && Later(old(repo.slot), old(repo.now), repo.slot, repo.now)
    ensures reply.NoReply? || reply.Read?
    ensures Told(reply, repo.slot, id, repo.now)
    ensures quiet ==>
              && repo.slot == old(repo.slot) && repo.now == old(repo.now)
              && reply == Read(Mine(old(repo.slot), id))
  {
    repo.Await(quiet);
    var threw := Fails(quiet);
    if threw { return NoReply; }
    var exact := repo.FindExact(id);
    return Read(exact);
  }

  method CreateRow(repo: AttemptRepository, id: string, quiet: bool) returns (reply: Reply)
    requires repo.Valid()
    modifies repo
    ensures repo.Valid() && Later(old(repo.slot), old(repo.now), repo.slot, repo.now)
    ensures reply.NoReply? || reply.Created? || reply.Conflict?
    ensures Told(reply, repo.slot, id, repo.now)
    ensures quiet && Nonblank(id) ==>
              && repo.now == old(repo.now)
              && (old(repo.slot).None? ==>
                    && reply.Created?
                    && A.RecordOf(repo.slot) == Some(A.ActiveRecord(id, NoInteraction, 0, 0, None)))
              && (old(repo.slot).Some? ==>
                    && repo.slot == old(repo.slot)
                    && (reply.Conflict? <==> OthersRow(repo.slot, id))
                    && (reply.Created? <==> !OthersRow(repo.slot, id)))
  {
    repo.Await(quiet);
    ghost var before := repo.slot;
    var threw := Fails(quiet);
    var created := repo.GetOrCreate(id, quiet);
    A.EvolvesTransitive(old(repo.slot), before, repo.slot);
    if threw || created.CreateThrew? { return NoReply; }
    return if created.IdentityConflict? then Conflict else Reply.Created(created.record);
  }

  method TakeLease(repo: AttemptRepository, id: string, token: string, leaseMs: int, quiet: bool)
      returns (reply: Reply)
    requires repo.Valid()
    modifies repo
    ensures repo.Valid() && Later(old(repo.slot), old(repo.now), repo.slot, repo.now)
    ensures Fits(Stage.Leasing, reply) && Told(reply, repo.slot, id, repo.now)
    ensures reply.LeaseTaken? ==>
              && repo.slot.Some? && reply.owner == A.Owner(id, token, repo.slot.value.generation)
              && A.Owns(repo.slot.value, reply.owner, repo.now) && repo.slot.value.phase == NoInteraction
    ensures quiet && Nonblank(token) && leaseMs > 0 ==>
              && repo.now == old(repo.now) && !reply.NoReply? && !reply.LeaseTakenByOther?
              && (reply.LeaseTaken? <==> Free(old(repo.slot), id))
              && (reply.LeaseTaken? ==>
                    JustLeased(repo.slot, repo.now, reply.owner, A.RetriesOf(old(repo.slot)), leaseMs))
              && (!reply.LeaseTaken? ==> repo.slot == old(repo.slot))
  {
    repo.Await(quiet);
    ghost var before := repo.slot;
    var threw := Fails(quiet);
    var leased := repo.AcquireLease(id, token, leaseMs, quiet);
    A.EvolvesTransitive(old(repo.slot), before, repo.slot);
    if threw { return NoReply; }
    match leased
    case LeaseAcquired(owner, _) =>
      var someoneElses := Fails(quiet);
      return if someoneElses then LeaseTakenByOther else LeaseTaken(owner);
    case LeaseHeld(_) => return LeaseIsHeld;
    case LeaseTerminal(record) => return LeaseIsTerminal(record);
    case ReconciliationRequired(_) => return LeaseLapsed;
    case LeaseThrew => return NoReply;
    case _ => return LeaseUnavailable;
  }

  method ReleaseLapsed(repo: AttemptRepository, id: string, quiet: bool) returns (reply: Reply)
    requires repo.Valid()
    modifies repo
    ensures repo.Valid() && Later(old(repo.slot), old(repo.now), repo.slot, repo.now)
    ensures reply.NoReply? || reply.ReleaseRefused? || reply.LeaseReleased?
    ensures Told(reply, repo.slot, id, repo.now)
    ensures reply.LeaseReleased? ==> reply.record.FailedRecord? || Free(repo.slot, id)
    ensures reply.LeaseReleased? ==> repo.slot.Some? && repo.slot.value.generation >= 2
    ensures quiet ==>
              && repo.now == old(repo.now)
              && (reply.LeaseReleased? <==> LapsedLease(old(repo.slot), id, repo.now))
              && (reply.ReleaseRefused? <==> !LapsedLease(old(repo.slot), id, repo.now))
              && (reply.LeaseReleased? ==> Reconciled(old(repo.slot), repo.slot, id))
              && (reply.ReleaseRefused? ==> repo.slot == old(repo.slot))
  {
    repo.Await(quiet);
    ghost var before := repo.slot;
    var threw := Fails(quiet);
    var reconciled := repo.ReconcileExpiredLease(id, quiet);
    A.EvolvesTransitive(old(repo.slot), before, repo.slot);
    return if threw then NoReply
        else if reconciled.LeaseReconciled? then LeaseReleased(reconciled.record) else ReleaseRefused;
  }

  /** Whether a lapsed lease may still become a retry. */
  predicate Retryable(slot: Option<A.Row>) {
    slot.Some? && slot.value.phase == NoInteraction && slot.value.retryCount < 2
  }

  /** What reconciling a lapsed lease leaves: a free row with one more retry consumed, or the failed attempt. */
  predicate Reconciled(before: Option<A.Row>, after: Option<A.Row>, id: string) {
    && before.Some? && after.Some? && Mine(after, id).Some?
    && (Retryable(before) ==> Free(after, id) && after.value.retryCount == before.value.retryCount + 1)
    && (!Retryable(before) ==>
          && Mine(after, id).value.FailedRecord?
          && Mine(after, id).value.failure == Classify(before.value.phase, TransientInfrastructure))
  }

  method Observe(portal: Probe, quiet: bool) returns (reply: Reply)
    ensures reply.NoReply? || reply.Aborted? || reply.Probed?
    ensures quiet ==> reply == Probed(portal)
  {
    var threw := Fails(quiet);
    if threw { return NoReply; }
    var aborted := Fails(quiet);
    if aborted { return Aborted; }
    var probe: Probe := *;
    return Probed(if quiet then portal else probe);
  }

  // ---- what the replies say ---------------------------------------------------------------------------------

  /** A question the mint asked, and what came back. */
  datatype Exchange = Exchange(question: Stage, reply: Reply)

  /** The verdicts that the last reply decides; what is not listed is "retry later, the state changed". */
  predicate SaidBy(state: SessionState, x: Exchange) {
    && (state == SessionCancelled <==> x.reply == Aborted)
    && (state == SessionAuthenticated(ExistingRow) <==>
          Shown(x.reply).Some? && Shown(x.reply).value.AuthenticatedRecord?)
    && (forall reason :: state == NeedsOperatorAction(FromAttempt(reason)) <==>
          Shown(x.reply).Some? && Shown(x.reply).value.FailedRecord?
          && Shown(x.reply).value.failure.operatorReason == reason)
    && (state == NeedsOperatorAction(IdentityConflictReview) <==> x.reply == Conflict)
    && (state == LeaseInProgress <==>
          x.reply == LeaseIsHeld || (ShowsActive(x.reply) && !ShowsFree(x.reply)))
    && (state == RetryLater(OwnershipChanged) <==> x.reply == LeaseTakenByOther)
    && (state == RetryLater(SessionProbeUnavailable) <==>
          x.reply == Probed(ProbeUnavailable) || x == Exchange(Probing, NoReply))
    && (state.AuthenticationRequired? <==> x.reply.LeaseTaken?)
  }

  datatype LeaseStep = Leased(owner: A.Owner) | NeedsReconciliation | Decided(state: SessionState)

  /** What a pass comes to, by its last reply: a lease, a lapsed lease to reconcile, or a verdict. */
  predicate StepSaidBy(step: LeaseStep, x: Exchange) {
    match step
    case Leased(owner) => x.reply == LeaseTaken(owner)
    case NeedsReconciliation => x.reply == LeaseLapsed
    case Decided(state) => !x.reply.LeaseLapsed? && SaidBy(state, x)
  }

  // ---- the mint loop ----------------------------------------------------------------------------------------

  /** The row as the pass first reads it; `None` goes on to the probe. An owned row is in progress, lapsed or not. */
  method ReadExact(repo: AttemptRepository, id: string, quiet: bool)
      returns (r: Option<SessionState>, x: Exchange)
    requires repo.Valid()
    modifies repo
    ensures repo.Valid() && Later(old(repo.slot), old(repo.now), repo.slot, repo.now)
    ensures r.Some? ==> Settled(r.value, repo.slot, id)
    ensures quiet ==>
              && repo.slot == old(repo.slot) && repo.now == old(repo.now)
              && Standing(r, repo.slot, id)
    ensures x.question == Reading && Fits(Reading, x.reply) && (r.Some? ==> SaidBy(r.value, x))
  {
    var read := ReadRow(repo, id, quiet);
    x := Exchange(Reading, read);
    if read.NoReply? { return Some(RetryLater(StateChanged)), x; }
    if read.found.None? { return None, x; }
    var resolved := Terminal(read.found.value);
    if resolved.Some? { return resolved, x; }
    return if read.found.value.lease.Some? then Some(LeaseInProgress) else None, x;
  }

  /** How the attempt stands: over, owned by somebody, or - `None` - still to be taken. */
  predicate Standing(r: Option<SessionState>, slot: Option<A.Row>, id: string) {
    if Over(slot, id) then r.Some? && SaysOver(r.value, slot, id)
    else r == if LeasedTo(slot, id) then Some(LeaseInProgress) else None
  }

  /** The row is there, or is created; `None` goes on to take the lease. */
  method Ensure(repo: AttemptRepository, id: string, quiet: bool) returns (r: Option<SessionState>, x: Exchange)
    requires repo.Valid()
    modifies repo
    ensures repo.Valid() && Later(old(repo.slot), old(repo.now), repo.slot, repo.now)
    ensures r.Some? ==> Settled(r.value, repo.slot, id)
    ensures quiet && Nonblank(id) ==>
              && repo.now == old(repo.now)
              && (old(repo.slot).None? ==> r.None? && Free(repo.slot, id) && repo.slot.value.retryCount == 0)
              && (old(repo.slot).Some? ==>
                    && repo.slot == old(repo.slot)
                    && if OthersRow(repo.slot, id) then r == Some(NeedsOperatorAction(IdentityConflictReview))
                       else Standing(r, repo.slot, id))
    ensures x.question == Creating && Fits(Creating, x.reply) && (r.Some? ==> SaidBy(r.value, x))
  {
    var created := CreateRow(repo, id, quiet);
    x := Exchange(Creating, created);
    if created.NoReply? { return Some(RetryLater(StateChanged)), x; }
    if created.Conflict? { return Some(NeedsOperatorAction(IdentityConflictReview)), x; }
    var resolved := Terminal(created.record);
    if resolved.Some? { return resolved, x; }
    return if created.record.lease.Some? then Some(LeaseInProgress) else None, x;
  }

  predicate LeasedNow(r: LeaseStep, slot: Option<A.Row>, now: int, id: string, token: string) {
    r.Leased? ==>
      && slot.Some? && r.owner == A.Owner(id, token, slot.value.generation)
      && A.Owns(slot.value, r.owner, now) && slot.value.phase == NoInteraction
  }

  /** The lease, once the row is there. */
  method LeaseForMint(repo: AttemptRepository, id: string, token: string, leaseMs: int, quiet: bool)
      returns (step: LeaseStep, x: Exchange)
    requires repo.Valid()
    modifies repo
    ensures repo.Valid() && Later(old(repo.slot), old(repo.now), repo.slot, repo.now)
    ensures step.Decided? ==> Settled(step.state, repo.slot, id)
    ensures LeasedNow(step, repo.slot, repo.now, id, token) && StepSaidBy(step, x)
    ensures quiet && Nonblank(token) && leaseMs > 0 && Free(old(repo.slot), id) ==>
              && step.Leased? && repo.now == old(repo.now)
              && JustLeased(repo.slot, repo.now, step.owner, A.RetriesOf(old(repo.slot)), leaseMs)
  {
    var leased := TakeLease(repo, id, token, leaseMs, quiet);
    x := Exchange(Stage.Leasing, leased);
    match leased
    case LeaseTaken(owner) => return LeaseStep.Leased(owner), x;
    case LeaseTakenByOther => return Decided(RetryLater(OwnershipChanged)), x;
    case LeaseIsHeld => return Decided(LeaseInProgress), x;
    case LeaseIsTerminal(record) => return Decided(Terminal(record).value), x;
    case LeaseLapsed => return NeedsReconciliation, x;
    case _ => return Decided(RetryLater(StateChanged)), x;
  }

  /** The attempt can be taken after an "unauthenticated" probe: nobody's row yet, or this attempt's, free. */
  predicate Takeable(slot: Option<A.Row>, id: string) { slot.None? || Free(slot, id) }

  /** What a quiet pass of the mint comes to, by the row and the portal's answer. */
  ghost predicate PassedBy(step: LeaseStep, portal: Probe, before: Option<A.Row>, after: Option<A.Row>, now: int,
                           id: string, leaseMs: int) {
    if Over(before, id) then step.Decided? && SaysOver(step.state, before, id)
    else if LeasedTo(before, id) then step == Decided(LeaseInProgress)
    else if portal == ProbeUnavailable then step == Decided(RetryLater(SessionProbeUnavailable))
    else if portal == ProbeAuthenticated then step == Decided(RetryLater(StateChanged))
    else if OthersRow(before, id) then step == Decided(NeedsOperatorAction(IdentityConflictReview))
    else step.Leased? && JustLeased(after, now, step.owner, A.RetriesOf(before), leaseMs)
  }

  /** One pass: read, probe, create, lease. `NeedsReconciliation` alone may lead to another. */
  method MintPass(repo: AttemptRepository, id: string, token: string, leaseMs: int, portal: Probe, quiet: bool)
      returns (step: LeaseStep, probe: Option<Probe>, x: Exchange)
    requires repo.Valid()
    modifies repo
    ensures repo.Valid() && Later(old(repo.slot), old(repo.now), repo.slot, repo.now)
    ensures step.Decided? ==>
              Settled(step.state, repo.slot, id) || step.state.SessionCancelled?
    ensures LeasedNow(step, repo.slot, repo.now, id, token)
    ensures step.Leased? || step.NeedsReconciliation? ==> probe == Some(ProbeUnauthenticated)
    ensures StepSaidBy(step, x)
    ensures quiet && Nonblank(id) && Nonblank(token) && leaseMs > 0 ==>
              && PassedBy(step, portal, old(repo.slot), repo.slot, repo.now, id, leaseMs)
              && repo.now == old(repo.now) && (!step.Leased? ==> repo.slot == old(repo.slot))
  {
    var read;
    read, x := ReadExact(repo, id, quiet);
    if read.Some? { return Decided(read.value), None, x; }
    var seen := Observe(portal, quiet);
    x := Exchange(Probing, seen);
    if seen.Aborted? { return Decided(SessionCancelled), None, x; }
    if seen.NoReply? { return Decided(RetryLater(SessionProbeUnavailable)), None, x; }
    probe := Some(seen.probe);
    if seen.probe != ProbeUnauthenticated {
      return Decided(RetryLater(if seen.probe == ProbeUnavailable then SessionProbeUnavailable else StateChanged)),
          probe, x;
    }
    ghost var s1 := repo.slot;
    step, x := EnsureAndLease(repo, id, token, leaseMs, quiet);
    A.EvolvesTransitive(old(repo.slot), s1, repo.slot);
  }

  method EnsureAndLease(repo: AttemptRepository, id: string, token: string, leaseMs: int, quiet: bool)
      returns (step: LeaseStep, x: Exchange)
    requires repo.Valid()
    modifies repo
    ensures repo.Valid() && Later(old(repo.slot), old(repo.now), repo.slot, repo.now)
    ensures step.Decided? ==> Settled(step.state, repo.slot, id)
    ensures LeasedNow(step, repo.slot, repo.now, id, token) && StepSaidBy(step, x)
    ensures quiet && Nonblank(id) && Nonblank(token) && leaseMs > 0 ==>
              && repo.now == old(repo.now)
              && (OthersRow(old(repo.slot), id) ==>
                    step == Decided(NeedsOperatorAction(IdentityConflictReview)) && repo.slot == old(repo.slot))
              && (Takeable(old(repo.slot), id) ==>
                    step.Leased? && JustLeased(repo.slot, repo.now, step.owner, A.RetriesOf(old(repo.slot)), leaseMs))
  {
    var present;
    present, x := Ensure(repo, id, quiet);
    if present.Some? { return Decided(present.value), x; }
    ghost var s2 := repo.slot;
    step, x := LeaseForMint(repo, id, token, leaseMs, quiet);
    A.EvolvesTransitive(old(repo.slot), s2, repo.slot);
  }

  /** A lease on this attempt has come to an end: the row's generation counts leases taken and leases given up. */
  predicate GivenUp(slot: Option<A.Row>, id: string) {
    slot.Some? && slot.value.attemptId == id && slot.value.generation >= 2
  }

  /** A lapsed lease is reconciled; `None` says go around again. */
  method Reconcile(repo: AttemptRepository, id: string, quiet: bool) returns (r: Option<SessionState>, x: Exchange)
    requires repo.Valid()
    modifies repo
    ensures repo.Valid() && Later(old(repo.slot), old(repo.now), repo.slot, repo.now)
    ensures r == None || r == Some(RetryLater(StateChanged))
    ensures r == None ==> GivenUp(repo.slot, id)
    ensures x.question == Reconciling && Fits(Reconciling, x.reply)
    ensures (r == None <==> x.reply.LeaseReleased?) && (r.Some? ==> SaidBy(r.value, x))
    ensures quiet ==> (r == None <==> LapsedLease(old(repo.slot), id, old(repo.now)))
  {
    var released := ReleaseLapsed(repo, id, quiet);
    return if released.LeaseReleased? then None else Some(RetryLater(StateChanged)), Exchange(Reconciling, released);
  }

  /** What a quiet mint comes to: an authority exactly for a takeable attempt and an "unauthenticated" portal. */
  ghost predicate MintedBy(r: SessionState, portal: Probe, before: Option<A.Row>, after: Option<A.Row>, now: int,
                           id: string, leaseMs: int)
    reads if r.AuthenticationRequired? then {r.authority} else {}
  {
    if Over(before, id) then SaysOver(r, before, id)
    else if LeasedTo(before, id) then r == LeaseInProgress
    else if portal == ProbeUnavailable then r == RetryLater(SessionProbeUnavailable)
    else if portal == ProbeAuthenticated then r == RetryLater(StateChanged)
    else if OthersRow(before, id) then r == NeedsOperatorAction(IdentityConflictReview)
    else r.AuthenticationRequired? && JustLeased(after, now, r.authority.owner, A.RetriesOf(before), leaseMs)
  }

  /** The body of the mint's loop; `None` goes around again, once a lapsed lease has been given up. */
  method MintRound(repo: AttemptRepository, id: string, token: string, leaseMs: int, reconciled: bool, portal: Probe,
      quiet: bool)
    returns (r: Option<SessionState>, probe: Option<Probe>, x: Exchange)
    requires repo.Valid()
    modifies repo
    ensures repo.Valid() && Later(old(repo.slot), old(repo.now), repo.slot, repo.now)
    ensures r.None? ==> !reconciled && GivenUp(repo.slot, id)
    ensures r.Some? ==>
              && r.value != InvalidRequest && Founded(r.value, repo.slot, id) && Minted(r.value, repo, id, token)
              && OnlyRestoring(r.value, false) && (r.value.SessionAuthenticated? ==> r.value.source == ExistingRow)
              && SaidBy(r.value, x)
    ensures r.Some? && r.value.AuthenticationRequired? ==>
              fresh(r.value.authority) && r.value.authority.leaseMs == leaseMs && probe == Some(ProbeUnauthenticated)
    ensures x.reply.LeaseLapsed? ==> reconciled && probe == Some(ProbeUnauthenticated)
    ensures quiet && Nonblank(id) && Nonblank(token) && leaseMs > 0 ==>
              && r.Some? && MintedBy(r.value, portal, old(repo.slot), repo.slot, repo.now, id, leaseMs)
              && repo.now == old(repo.now) && (!r.value.AuthenticationRequired? ==> repo.slot == old(repo.slot))
  {
    var step;
    step, probe, x := MintPass(repo, id, token, leaseMs, portal, quiet);
    if step.Decided? { return Some(step.state), probe, x; }
    if step.Leased? {
      var authority := new Authority(repo, step.owner, leaseMs);
      return Some(AuthenticationRequired(authority)), probe, x;
    }
    if reconciled { return Some(RetryLater(StateChanged)), probe, x; }
    ghost var lapsed := repo.slot;
    r, x := Reconcile(repo, id, quiet);
    A.EvolvesTransitive(old(repo.slot), lapsed, repo.slot);
  }

  /**
   * The only way to an authority. It goes around at most twice whatever anybody answers; an authority comes only after
   * an "unauthenticated" probe in the same pass (`probe` is that pass's), on a fresh lease at the initial phase. A
   * quiet call needs one pass, and answers by the row and the portal alone.
   */
  method AcquireAuthenticationMutationAuthority(repo: AttemptRepository, key: R.Key, id: string, token: string,
      leaseMs: int, abortedAtStart: bool, portal: Probe, quiet: bool)
    returns (r: SessionState, probe: Option<Probe>, passes: nat, x: Exchange)
    requires repo.Valid()
    modifies repo
    ensures repo.Valid() && Later(old(repo.slot), old(repo.now), repo.slot, repo.now)
    ensures passes <= 2
    // Around again only once a lapsed lease has been given up, and every verdict is the last reply's.
    ensures passes == 2 ==> GivenUp(repo.slot, id)
    ensures passes > 0 ==>
              && SaidBy(r, x)
              && (x.reply.LeaseLapsed? ==> passes == 2 && probe == Some(ProbeUnauthenticated))
    ensures r.InvalidRequest? <==> !ValidRequest(key, id, token, leaseMs)
    ensures ValidRequest(key, id, token, leaseMs) && abortedAtStart ==> r.SessionCancelled? && passes == 0
    ensures Founded(r, repo.slot, id) && Minted(r, repo, id, token)
    ensures r.AuthenticationRequired? ==>
              && fresh(r.authority) && r.authority.leaseMs == leaseMs
              && probe == Some(ProbeUnauthenticated)
    ensures r.SessionAuthenticated? ==> r.source == ExistingRow
    ensures OnlyRestoring(r, false)
    ensures quiet && ValidRequest(key, id, token, leaseMs) && !abortedAtStart ==>
              && MintedBy(r, portal, old(repo.slot), repo.slot, repo.now, id, leaseMs)
              && repo.now == old(repo.now) && (!r.AuthenticationRequired? ==> repo.slot == old(repo.slot))
  {
    probe, passes, x := None, 0, Exchange(Reading, NoReply);
    if !ValidRequest(key, id, token, leaseMs) { return InvalidRequest, None, 0, x; }
    if abortedAtStart { return SessionCancelled, None, 0, x; }
    var reconciled := false;
    while true
      invariant repo.Valid() && Later(old(repo.slot), old(repo.now), repo.slot, repo.now)
      invariant passes == if reconciled then 1 else 0
      invariant reconciled ==> GivenUp(repo.slot, id)
      invariant !reconciled ==> repo.slot == old(repo.slot) && repo.now == old(repo.now)
      invariant quiet ==> !reconciled
      decreases !reconciled
    {
      passes := passes + 1;
      ghost var before := repo.slot;
      var round;
      round, probe, x := MintRound(repo, id, token, leaseMs, reconciled, portal, quiet);
      A.EvolvesTransitive(old(repo.slot), before, repo.slot);
      if round.Some? { return round.value, probe, passes, x; }
      reconciled := true;
    }
  }
}
