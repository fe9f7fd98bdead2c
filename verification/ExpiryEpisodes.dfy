// One durable expiry episode: its columns, the three tuple parsers, and the guarded updates both repositories apply.
module ExpiryEpisodes {
  import opened Wrappers

  datatype PublicationState = Pending | Publishing | Published | Cancelled
  datatype AttemptState = Reserved | MutationStarted | ManualRecoveryRequired | Resolved
  datatype Source = Scheduled | ScrapeTime
  datatype FailureReason = JobFailed | JobMissing
  datatype AuditKind = ExpiredAudit | RestoredAudit

  datatype Id = Id(bankCode: string, expiredEventId: string, runId: string)

  datatype Episode = Episode(
    id: Id,
    expiredAudit: bool, restoredAudit: bool,
    publication: PublicationState, publicationToken: Option<string>, failureReportedAt: Option<int>,
    claimToken: Option<string>, attempt: Option<AttemptState>, source: Option<Source>, lease: Option<int>,
    terminalReason: Option<FailureReason>, terminalReconciledAt: Option<int>,
    updatedAt: int)

  const PUBLICATION_CLAIM_TIMEOUT_MS := 30_000

  /** How a lease owner names its claim: by the published envelope's token, or by the bare episode. */
  datatype Via = ViaEnvelope(token: string) | ViaScrape

  /** The updates that go through the repository's one checked update path. */
  datatype Op =
    | ClaimPublication(token: string)
    | MarkPublished(token: string)
    | CancelPublication
    | ReportFailure(token: string)
    | ClaimConsumer(envelopeToken: string, claimToken: string)
    | ClaimLease(via: Via, claimToken: string, leaseMs: int)
    | RenewLease(via: Via, claimToken: string, leaseMs: int)
    | ReconcileLease
    | StartMutation(envelopeToken: string, claimToken: string)
    | StartMutationLease(via: Via, claimToken: string)
    | RequireManual(envelopeToken: string, claimToken: string)
    | RequireManualLease(via: Via, claimToken: string)
    | Resolve(envelopeToken: string, claimToken: string)
    | ResolveLease(via: Via, claimToken: string)

  // ---- tuple parsers ----------------------------------------------------------------------------------------

  predicate Claimed(token: Option<string>) { token.Some? && Nonblank(token.value) }

  predicate PublicationTupleParses(state: PublicationState, token: Option<string>, failure: Option<int>) {
    || ((state == Pending || state == Cancelled) && token.None? && failure.None?)
    || (state == Publishing && Claimed(token))
    || (state == Published && Claimed(token) && failure.None?)
  }

  predicate ConsumerTupleParses(attempt: Option<AttemptState>, token: Option<string>) {
    (attempt.None? && token.None?) || (Claimed(token) && attempt.Some?)
  }

  predicate LeaseTupleParses(e: Episode) {
    if e.source.None? && e.lease.None? then true
    else
      var active := e.attempt == Some(Reserved) || e.attempt == Some(MutationStarted);
      var terminal := e.attempt == Some(ManualRecoveryRequired) || e.attempt == Some(Resolved);
      !(|| e.source.None?
        || (active && (e.lease.None? || e.terminalReason.Some?))
        || (terminal && e.lease.Some?)
        || (!active && !terminal)
        || (e.source == Some(Scheduled) && e.publication != Published)
        || (e.source == Some(Scheduled) && !Claimed(e.publicationToken))
        || (e.source == Some(ScrapeTime) && (e.publication != Pending || e.publicationToken.Some?)))
  }

  predicate Parses(e: Episode) {
    && PublicationTupleParses(e.publication, e.publicationToken, e.failureReportedAt)
    && ConsumerTupleParses(e.attempt, e.claimToken)
    && LeaseTupleParses(e)
  }

  /** The lease columns' CHECK constraint, read clause by clause from the tightened migration. */
  predicate LeaseConstraint(e: Episode) {
    || (e.source.None? && e.lease.None?)
    || (&& e.source.Some?
        && e.attempt.Some?
        && (if e.attempt.value == Reserved || e.attempt.value == MutationStarted
            then e.lease.Some? && e.terminalReason.None? else e.lease.None?)
        && (match e.source.value
            case Scheduled => e.publication == Published && Claimed(e.publicationToken)
            case ScrapeTime => e.publication == Pending && e.publicationToken.None?))
  }

  /** The publication columns' CHECK constraint. */
  predicate PublicationConstraint(e: Episode) {
    match e.publication
    case Publishing => e.publicationToken.Some? && Nonblank(e.publicationToken.value)
    case Published =>
      e.publicationToken.Some? && Nonblank(e.publicationToken.value) && e.failureReportedAt.None?
    case _ => e.publicationToken.None? && e.failureReportedAt.None?
  }

  /** The consumer columns' CHECK constraint; it also rules out a reservation on a restored episode. */
  predicate ConsumerConstraint(e: Episode) {
    || (e.claimToken.None? && e.attempt.None?)
    || (&& e.claimToken.Some? && e.attempt.Some? && Nonblank(e.claimToken.value)
        && (e.attempt.value != Reserved || !e.restoredAudit))
  }

  /** The three application parsers accept exactly what the three database constraints admit. */
  lemma ParsersMatchConstraints(e: Episode)
    ensures LeaseTupleParses(e) <==> LeaseConstraint(e)
    ensures PublicationTupleParses(e.publication, e.publicationToken, e.failureReportedAt) <==> PublicationConstraint(e)
    ensures ConsumerTupleParses(e.attempt, e.claimToken) && !(e.attempt == Some(Reserved) && e.restoredAudit)
            <==> ConsumerConstraint(e)
  {
  }

  // ---- the checked update path ------------------------------------------------------------------------------

  predicate Accepted(op: Op) {
    match op
    case ClaimPublication(t) => Nonblank(t)
    case MarkPublished(t) => Nonblank(t)
    case CancelPublication => true
    case ReportFailure(t) => Nonblank(t)
    case ClaimLease(_, t, ms) => Nonblank(t) && ms > 0
    case RenewLease(_, t, ms) => Nonblank(t) && ms > 0
    case ReconcileLease => true
    case _ => Nonblank(op.claimToken)
  }

  predicate Unclaimed(e: Episode) { e.claimToken.None? && e.attempt.None? }

  predicate Reaches(e: Episode, via: Via) {
    match via
    case ViaEnvelope(token) => e.publication == Published && e.publicationToken == Some(token)
    case ViaScrape => e.publication == Pending && e.publicationToken.None?
  }

  function SourceOf(via: Via): Source { if via.ViaEnvelope? then Scheduled else ScrapeTime }

  predicate LeaseLive(e: Episode, now: int) { e.lease.Some? && e.lease.value > now }

  predicate NoLeaseOrLive(e: Episode, now: int) { e.lease.None? || e.lease.value > now }

  predicate OwnsActiveLease(e: Episode, via: Via, claimToken: string, now: int) {
    && e.claimToken == Some(claimToken) && e.source == Some(SourceOf(via))
    && LeaseLive(e, now) && e.terminalReason.None? && Reaches(e, via)
  }

  predicate Resolvable(e: Episode) {
    e.attempt == Some(MutationStarted) || (e.attempt == Some(Reserved) && !e.restoredAudit)
  }

  predicate CanUpdate(op: Op, e: Episode, now: int) {
    match op
    case ClaimPublication(token) =>
      && !e.restoredAudit && e.attempt.None?
      && (|| e.publication == Pending
          || (&& e.publication == Publishing && e.publicationToken == Some(token)
              && (e.failureReportedAt.Some? || e.updatedAt < now - PUBLICATION_CLAIM_TIMEOUT_MS)))
    case MarkPublished(token) => !e.restoredAudit && e.publication == Publishing && e.publicationToken == Some(token)
    case CancelPublication => e.publication == Pending || e.publication == Publishing
    case ReportFailure(token) =>
      e.publication == Publishing && e.publicationToken == Some(token) && e.failureReportedAt.None?
    case ClaimConsumer(token, _) => !e.restoredAudit && Reaches(e, ViaEnvelope(token)) && Unclaimed(e)
    case ClaimLease(via, _, _) => !e.restoredAudit && e.terminalReason.None? && Unclaimed(e) && Reaches(e, via)
    case RenewLease(via, claimToken, _) =>
      (e.attempt == Some(Reserved) || e.attempt == Some(MutationStarted)) && OwnsActiveLease(e, via, claimToken, now)
    case ReconcileLease =>
      && e.source.Some? && (e.attempt == Some(Reserved) || e.attempt == Some(MutationStarted))
      && e.lease.Some? && e.lease.value <= now
    case StartMutation(token, claimToken) =>
      && !e.restoredAudit && Reaches(e, ViaEnvelope(token)) && e.claimToken == Some(claimToken)
      && e.attempt == Some(Reserved) && NoLeaseOrLive(e, now)
    case StartMutationLease(via, claimToken) =>
      OwnsActiveLease(e, via, claimToken, now) && e.attempt == Some(Reserved) && !e.restoredAudit
    case RequireManual(token, claimToken) =>
      && Reaches(e, ViaEnvelope(token)) && e.claimToken == Some(claimToken)
      && e.attempt == Some(MutationStarted) && NoLeaseOrLive(e, now)
    case RequireManualLease(via, claimToken) =>
      OwnsActiveLease(e, via, claimToken, now) && e.attempt == Some(MutationStarted)
    case Resolve(token, claimToken) =>
      Reaches(e, ViaEnvelope(token)) && e.claimToken == Some(claimToken) && NoLeaseOrLive(e, now) && Resolvable(e)
    case ResolveLease(via, claimToken) => OwnsActiveLease(e, via, claimToken, now) && Resolvable(e)
  }

  function Update(op: Op, e: Episode, now: int): (f: Episode)
    ensures f.id == e.id
  {
    match op
    case ClaimPublication(token) =>
      e.(publication := Publishing, publicationToken := Some(token), failureReportedAt := None)
    case MarkPublished(_) => e.(publication := Published, failureReportedAt := None)
    case CancelPublication => e.(publication := Cancelled, publicationToken := None, failureReportedAt := None)
    case ReportFailure(_) => e.(failureReportedAt := Some(now))
    case ClaimConsumer(_, claimToken) => e.(claimToken := Some(claimToken), attempt := Some(Reserved))
    case ClaimLease(via, claimToken, ms) =>
      e.(claimToken := Some(claimToken), attempt := Some(Reserved), source := Some(SourceOf(via)),
          lease := Some(now + ms))
    case RenewLease(_, _, ms) => e.(lease := Some(now + ms))
    case ReconcileLease => e.(attempt := Some(ManualRecoveryRequired), lease := None)
    case StartMutation(_, _) => e.(attempt := Some(MutationStarted))
    case StartMutationLease(_, _) => e.(attempt := Some(MutationStarted))
    case RequireManual(_, _) => e.(attempt := Some(ManualRecoveryRequired), lease := None)
    case RequireManualLease(_, _) => e.(attempt := Some(ManualRecoveryRequired), lease := None)
    case Resolve(_, _) => e.(attempt := Some(Resolved), lease := None)
    case ResolveLease(_, _) => e.(attempt := Some(Resolved), lease := None)
  }

  datatype UpdateResult = Updated(episode: Episode) | NotUpdated | TupleRejected

  /** Guard, update, runtime check of the lease tuple, timestamp. `TupleRejected` is the check throwing. */
  function UpdatePublication(op: Op, e: Episode, now: int): (r: UpdateResult)
    ensures r.Updated? ==> r.episode.id == e.id
  {
    if !CanUpdate(op, e, now) then NotUpdated
    else
      var u := Update(op, e, now);
      if LeaseTupleParses(u) then Updated(u.(updatedAt := now)) else TupleRejected
  }

  // ---- updates that bypass the check ------------------------------------------------------------------------

  function New(id: Id, now: int): Episode {
    Episode(id, false, false, Pending, None, None, None, None, None, None, None, None, now)
  }

  predicate AuditFlag(e: Episode, kind: AuditKind) {
    match kind case ExpiredAudit => e.expiredAudit case RestoredAudit => e.restoredAudit
  }

  /** Marking the restored audit also clears a reservation that has not started to mutate. */
  function MarkAudit(e: Episode, kind: AuditKind): Episode {
    match kind
    case ExpiredAudit => e.(expiredAudit := true)
    case RestoredAudit =>
      if e.attempt == Some(Reserved)
      then e.(restoredAudit := true, claimToken := None, attempt := None, source := None, lease := None)
      else e.(restoredAudit := true)
  }

  predicate CanResolveManually(e: Episode, envelopeToken: string, claimToken: string) {
    && Reaches(e, ViaEnvelope(envelopeToken)) && e.claimToken == Some(claimToken)
    && e.attempt == Some(ManualRecoveryRequired)
  }

  function ResolveManually(e: Episode, now: int): Episode { e.(attempt := Some(Resolved), updatedAt := now) }

  predicate CanClose(e: Episode) { e.attempt.None? || e.attempt == Some(Resolved) }

  datatype TerminalResult = Reconciled | AlreadyReconciled | StaleEnvelope | ActiveLeaseDefers

  function ReconcileTerminalResult(e: Episode, envelopeToken: string, reason: FailureReason, now: int): TerminalResult {
    if !Reaches(e, ViaEnvelope(envelopeToken)) || e.restoredAudit || e.attempt == Some(Resolved) then StaleEnvelope
    else if e.terminalReason == Some(JobFailed) || e.terminalReason == Some(reason) then AlreadyReconciled
    else if LeaseLive(e, now) then ActiveLeaseDefers
    else Reconciled
  }

  predicate NeedsManualRecovery(e: Episode) {
    e.attempt == Some(MutationStarted) || e.attempt == Some(ManualRecoveryRequired)
    || (e.source.Some? && e.attempt == Some(Reserved))
  }

  function ReconcileTerminal(e: Episode, reason: FailureReason, reconciledAt: int, now: int): Episode {
    var manual := NeedsManualRecovery(e);
    e.(attempt := if manual then Some(ManualRecoveryRequired) else e.attempt,
       lease := if manual then None else e.lease,
       terminalReason := Some(reason),
       terminalReconciledAt := if e.terminalReconciledAt.Some? then e.terminalReconciledAt else Some(reconciledAt),
       updatedAt := now)
  }

  /** The episode half of an observed restoration: whether its transaction may resolve the episode. */
  predicate ObservedResolvable(e: Episode, now: int) {
    || e.attempt == Some(ManualRecoveryRequired)
    || (e.attempt == Some(MutationStarted) && e.claimToken.Some? && e.claimToken.value != ""
        && e.lease.Some? && e.lease.value <= now)
  }

  function ResolveObserved(e: Episode, now: int): Episode {
    e.(attempt := Some(Resolved), lease := None, updatedAt := now)
  }

  // ---- what every update keeps ------------------------------------------------------------------------------

  /** Every reachable episode parses, and a restored one is not reserved. */
  predicate WellFormed(e: Episode) {
    && Parses(e)
    && (e.restoredAudit ==> e.attempt != Some(Reserved))
    && (e.attempt.Some? && e.source.None? ==> e.publication == Published)
  }

  /**
   * On a well-formed episode the runtime tuple check fires exactly for cancelling the publication of an episode
   * that a scrape-time claim holds; every other admitted update leaves a well-formed episode.
   */
  lemma RuntimeCheckFiresExactly(op: Op, e: Episode, now: int)
    requires WellFormed(e) && Accepted(op) && CanUpdate(op, e, now)
    ensures UpdatePublication(op, e, now).TupleRejected? <==> (op.CancelPublication? && e.source == Some(ScrapeTime))
    ensures UpdatePublication(op, e, now).Updated? ==> WellFormed(UpdatePublication(op, e, now).episode)
  {
  }

  lemma UncheckedUpdatesKeepWellFormed(e: Episode, id: Id, now: int)
    requires WellFormed(e)
    ensures WellFormed(New(id, now))
    ensures forall kind :: WellFormed(MarkAudit(e, kind))
    ensures e.attempt == Some(ManualRecoveryRequired) ==> WellFormed(ResolveManually(e, now))
    ensures ObservedResolvable(e, now) ==> WellFormed(ResolveObserved(e, now))
    ensures forall token, reason, at ::
              ReconcileTerminalResult(e, token, reason, now) == Reconciled ==>
                WellFormed(ReconcileTerminal(e, reason, at, now))
  {
  }

  // ---- exactly what each update needs and leaves ------------------------------------------------------------

  /** The claim token an update names, if it names one. */
  function TokenOf(op: Op): Option<string> {
    match op
    case ClaimPublication(_) => None
    case MarkPublished(_) => None
    case CancelPublication => None
    case ReportFailure(_) => None
    case ReconcileLease => None
    case _ => Some(op.claimToken)
  }

  /** An update is sent only with proper tokens and, for a lease, a duration; anything else throws beforehand. */
  lemma AcceptedExactly(op: Op)
    ensures Accepted(op) <==>
              && (TokenOf(op).Some? ==> Nonblank(TokenOf(op).value))
              && (op.ClaimPublication? || op.MarkPublished? || op.ReportFailure? ==> Nonblank(op.token))
              && (op.ClaimLease? || op.RenewLease? ==> op.leaseMs > 0)
  {
  }

  /** A new episode waits to be published or claimed by a scrape, has no audit delivered, and can still be closed. */
  lemma NewIsOpen(id: Id, now: int, later: int, op: Op)
    requires Accepted(op) && now <= later
    ensures var e := New(id, now);
            && e.id == id && WellFormed(e) && Unclaimed(e) && CanClose(e) && e.updatedAt == now
            && !e.expiredAudit && !e.restoredAudit && e.terminalReason.None? && e.terminalReconciledAt.None?
            && (UpdatePublication(op, e, later).Updated? <==>
                  op.ClaimPublication? || op.CancelPublication? || (op.ClaimLease? && op.via.ViaScrape?))
  {
  }

  /** The published envelope of this token. */
  predicate Envelope(e: Episode, token: string) { e.publication == Published && e.publicationToken == Some(token) }

  /** A lease still running, under this claim token and reached this way. */
  predicate LeasedBy(e: Episode, via: Via, claimToken: string, now: int) {
    && LeaseLive(e, now) && e.claimToken == Some(claimToken)
    && match via
       case ViaEnvelope(token) => e.source == Some(Scheduled) && e.publicationToken == Some(token)
       case ViaScrape => e.source == Some(ScrapeTime)
  }

  /** A claim on this envelope under this claim token, whose lease, if it has one, is still running. */
  predicate ClaimedBy(e: Episode, token: string, claimToken: string, now: int) {
    Envelope(e, token) && e.claimToken == Some(claimToken) && (e.lease.Some? ==> LeaseLive(e, now))
  }

  predicate Claimable(e: Episode) { !e.restoredAudit && e.attempt.None? }

  /**
   * Exactly when each checked update goes through on a well-formed episode. A running lease speaks for its holder: it
   * can be renewed and resolved without a further look at the attempt, and only a lapsed one is anybody's to reconcile.
   */
  lemma UpdatesExactly(op: Op, e: Episode, now: int)
    requires WellFormed(e) && Accepted(op)
    ensures var yes := UpdatePublication(op, e, now).Updated?;
            match op
            case ClaimPublication(token) =>
              yes <==>
                && Claimable(e)
                && (|| e.publication == Pending
                    || (&& e.publication == Publishing && e.publicationToken == Some(token)
                        && (e.failureReportedAt.Some? || now - e.updatedAt > 30_000)))
            case MarkPublished(token) =>
              yes <==> !e.restoredAudit && e.publication == Publishing && e.publicationToken == Some(token)
            case CancelPublication =>
              yes <==> e.publication in {Pending, Publishing} && e.source != Some(ScrapeTime)
            case ReportFailure(token) =>
              yes <==> e.publication == Publishing && e.publicationToken == Some(token) && e.failureReportedAt.None?
            case ClaimConsumer(token, _) => yes <==> Claimable(e) && Envelope(e, token)
            case ClaimLease(via, _, _) =>
              yes <==>
                && Claimable(e) && e.terminalReason.None?
                && if via.ViaEnvelope? then Envelope(e, via.token) else e.publication == Pending
            case RenewLease(via, claim, _) => yes <==> LeasedBy(e, via, claim, now)
            case ReconcileLease => yes <==> e.lease.Some? && !LeaseLive(e, now)
            case StartMutation(token, claim) => yes <==> ClaimedBy(e, token, claim, now) && e.attempt == Some(Reserved)
            case StartMutationLease(via, claim) => yes <==> LeasedBy(e, via, claim, now) && e.attempt == Some(Reserved)
            case RequireManual(token, claim) =>
              yes <==> ClaimedBy(e, token, claim, now) && e.attempt == Some(MutationStarted)
            case RequireManualLease(via, claim) =>
              yes <==> LeasedBy(e, via, claim, now) && e.attempt == Some(MutationStarted)
            case Resolve(token, claim) =>
              yes <==> ClaimedBy(e, token, claim, now) && e.attempt in {Some(Reserved), Some(MutationStarted)}
            case ResolveLease(via, claim) => yes <==> LeasedBy(e, via, claim, now)
  {
  }

  /** The attempt an update leads to: claims reserve, starts start, and only the two resolutions resolve. */
  predicate AttemptAfter(op: Op, before: Option<AttemptState>, after: Option<AttemptState>) {
    if op.ClaimConsumer? || op.ClaimLease? then before.None? && after == Some(Reserved)
    else if op.StartMutation? || op.StartMutationLease? then before == Some(Reserved) && after == Some(MutationStarted)
    else if op.RequireManual? || op.RequireManualLease? || op.ReconcileLease? then after == Some(ManualRecoveryRequired)
    else if op.Resolve? || op.ResolveLease? then after == Some(Resolved)
    else after == before
  }

  /** Column by column, what a checked update that went through leaves. */
  lemma UpdateLeavesExactly(op: Op, e: Episode, now: int)
    requires WellFormed(e) && Accepted(op) && UpdatePublication(op, e, now).Updated?
    ensures var f := UpdatePublication(op, e, now).episode;
            && AttemptAfter(op, e.attempt, f.attempt)
            && f.claimToken == (if op.ClaimConsumer? || op.ClaimLease? then Some(op.claimToken) else e.claimToken)
            && f.source == (if op.ClaimLease? then Some(if op.via.ViaScrape? then ScrapeTime else Scheduled)
                            else e.source)
            && f.lease == (if op.ClaimLease? || op.RenewLease? then Some(now + op.leaseMs)
                           else if f.attempt in {Some(ManualRecoveryRequired), Some(Resolved)} then None else e.lease)
            && f.publication == (match op
                                 case ClaimPublication(_) => Publishing
                                 case MarkPublished(_) => Published
                                 case CancelPublication => Cancelled
                                 case _ => e.publication)
            && f.publicationToken == (match op
                                      case ClaimPublication(token) => Some(token)
                                      case CancelPublication => None
                                      case _ => e.publicationToken)
            && f.failureReportedAt == (if op.ReportFailure? then Some(now)
                                       else if f.publication != e.publication || op.ClaimPublication? then None
                                       else e.failureReportedAt)
            && f.id == e.id && f.updatedAt == now
            && f.expiredAudit == e.expiredAudit && f.restoredAudit == e.restoredAudit
            && f.terminalReason == e.terminalReason && f.terminalReconciledAt == e.terminalReconciledAt
  {
  }

  /** An audit mark touches its flag alone, but that a restored audit withdraws a mere reservation altogether. */
  lemma MarkLeavesExactly(e: Episode, kind: AuditKind)
    requires WellFormed(e)
    ensures var f := MarkAudit(e, kind);
            && f.expiredAudit == (e.expiredAudit || kind == ExpiredAudit)
            && f.restoredAudit == (e.restoredAudit || kind == RestoredAudit)
            && (if kind == RestoredAudit && e.attempt == Some(Reserved)
                then f.attempt.None? && f.claimToken.None? && f.source.None? && f.lease.None?
                else f.attempt == e.attempt && f.claimToken == e.claimToken && f.source == e.source
                     && f.lease == e.lease)
            && f.id == e.id && f.publication == e.publication && f.publicationToken == e.publicationToken
            && f.failureReportedAt == e.failureReportedAt && f.terminalReason == e.terminalReason
            && f.terminalReconciledAt == e.terminalReconciledAt && f.updatedAt == e.updatedAt
  {
  }

  /** The four answers to a failed queue job, exactly: a live lease defers it, a first or worse reason is taken up. */
  lemma TerminalAnswersExactly(e: Episode, token: string, reason: FailureReason, now: int)
    requires WellFormed(e)
    ensures var r := ReconcileTerminalResult(e, token, reason, now);
            var stale := !Envelope(e, token) || e.restoredAudit || e.attempt == Some(Resolved);
            var known := e.terminalReason.Some? && (e.terminalReason.value == JobFailed || reason == JobMissing);
            && (r == StaleEnvelope <==> stale)
            && (r == AlreadyReconciled <==> !stale && known)
            && (r == ActiveLeaseDefers <==> !stale && !known && LeaseLive(e, now))
            && (r == Reconciled <==> !stale && !known && !LeaseLive(e, now))
  {
  }

  /** A failed job leaves no lease and nothing mutating: whatever was leased or had begun is for an operator. */
  lemma TerminalLeavesExactly(e: Episode, token: string, reason: FailureReason, at: int, now: int)
    requires WellFormed(e) && ReconcileTerminalResult(e, token, reason, now) == Reconciled
    ensures var f := ReconcileTerminal(e, reason, at, now);
            && f.lease.None? && f.terminalReason == Some(reason) && f.updatedAt == now
            && f.attempt == (if e.attempt.None? || (e.attempt == Some(Reserved) && e.lease.None?) then e.attempt
                             else Some(ManualRecoveryRequired))
            && f.terminalReconciledAt == (if e.terminalReconciledAt.None? then Some(at) else e.terminalReconciledAt)
            && f == e.(lease := f.lease, attempt := f.attempt, terminalReason := f.terminalReason,
                       terminalReconciledAt := f.terminalReconciledAt, updatedAt := now)
  {
    assert e.attempt.Some? ==>
        var a := e.attempt.value; a.Reserved? || a.MutationStarted? || a.ManualRecoveryRequired? || a.Resolved?;
  }

  /** A resolution, by hand or by observation, resolves the attempt and touches nothing else but its lease. */
  lemma ResolutionLeavesExactly(e: Episode, now: int)
    requires WellFormed(e)
    ensures e.attempt == Some(ManualRecoveryRequired) ==>
              ResolveManually(e, now) == e.(attempt := Some(Resolved), updatedAt := now)
    ensures ResolveObserved(e, now) == e.(attempt := Some(Resolved), lease := None, updatedAt := now)
    ensures ObservedResolvable(e, now) <==>
              || e.attempt == Some(ManualRecoveryRequired)
              || (e.attempt == Some(MutationStarted) && e.lease.Some? && !LeaseLive(e, now))
    ensures CanClose(e) <==> e.attempt !in {Some(Reserved), Some(MutationStarted), Some(ManualRecoveryRequired)}
  {
    assert e.attempt.Some? ==>
        var a := e.attempt.value; a.Reserved? || a.MutationStarted? || a.ManualRecoveryRequired? || a.Resolved?;
  }

  /** A consumer lease taken or renewed is owned until its own duration has passed. */
  lemma ConsumerLeaseHolds(op: Op, e: Episode, now: int, later: int)
    requires WellFormed(e) && (op.ClaimLease? || op.RenewLease?) && UpdatePublication(op, e, now).Updated?
    ensures var after := UpdatePublication(op, e, now).episode;
            OwnsActiveLease(after, op.via, op.claimToken, later) <==> later < now + op.leaseMs
  {
  }

  /**
   * While a consumer lease is live its claim, state and expiry change only at the hand of who knows its claim token; a
   * failed queue job waits, an observed restoration refuses, and only a restored audit may still clear a reservation.
   */
  lemma LiveConsumerLeaseIsExclusive(op: Op, e: Episode, now: int, token: string, reason: FailureReason)
    requires WellFormed(e) && LeaseLive(e, now)
    ensures var r := UpdatePublication(op, e, now);
            r.Updated? && TokenOf(op) != e.claimToken ==>
              r.episode.attempt == e.attempt && r.episode.claimToken == e.claimToken && r.episode.lease == e.lease
    ensures ReconcileTerminalResult(e, token, reason, now) != Reconciled
    ensures !ObservedResolvable(e, now)
    ensures forall kind :: MarkAudit(e, kind).lease == e.lease || (kind == RestoredAudit && e.attempt == Some(Reserved))
  {
  }

  /** A publication in progress can be taken up again only under its own token and only after the claim timeout. */
  lemma PublicationRetakenExactly(token: string, again: string, e: Episode, now: int, later: int)
    requires WellFormed(e) && Nonblank(token) && Nonblank(again)
        && UpdatePublication(ClaimPublication(token), e, now).Updated?
    ensures var claimed := UpdatePublication(ClaimPublication(token), e, now).episode;
            && (UpdatePublication(ClaimPublication(again), claimed, later).Updated? <==>
                  again == token && later - now > 30_000)
            && (forall at :: UpdatePublication(ReportFailure(token), claimed, at).Updated?
                  && (var failed := UpdatePublication(ReportFailure(token), claimed, at).episode;
                      UpdatePublication(ClaimPublication(again), failed, later).Updated? <==> again == token))
  {
  }

  /** Whether an episode whose two audits have just been marked can have its publication cancelled and be closed. */
  lemma RestoredClosesExactly(e: Episode, now: int)
    requires WellFormed(e)
    ensures var f := MarkAudit(MarkAudit(e, ExpiredAudit), RestoredAudit);
            !UpdatePublication(CancelPublication, f, now).TupleRejected? && CanClose(f) <==>
              e.attempt.None? || e.attempt == Some(Reserved) || (e.attempt == Some(Resolved)
                  && e.source != Some(ScrapeTime))
  {
  }

  /**
   * What may have become of an episode that is still the same one: audits stay delivered, a publication only moves
   * forward under its token, a claim keeps its token until a restoration clears it, and mutation is never undone.
   */
  predicate EvolvesTo(e: Episode, f: Episode) {
    && f.id == e.id
    && (e.expiredAudit ==> f.expiredAudit)
    && (e.restoredAudit ==> f.restoredAudit)
    && (e.publication == Published ==> f.publication == Published && f.publicationToken == e.publicationToken)
    && (e.publication == Publishing ==>
          f.publication == Cancelled || (f.publication != Pending && f.publicationToken == e.publicationToken))
    && (e.publication == Cancelled ==> f.publication == Cancelled)
    && (e.attempt.Some? ==>
          || (f.restoredAudit && f.attempt.None? && e.attempt == Some(Reserved))
          || (f.attempt.Some? && f.claimToken == e.claimToken && f.source == e.source))
    && (e.attempt.Some? && f.attempt.Some? ==> AttemptRank(e.attempt.value) <= AttemptRank(f.attempt.value))
    && (e.restoredAudit && e.attempt.None? ==> f.attempt.None?)
  }

  function AttemptRank(a: AttemptState): nat {
    match a
    case Reserved => 0
    case MutationStarted => 1
    case ManualRecoveryRequired => 2
    case Resolved => 3
  }
}
