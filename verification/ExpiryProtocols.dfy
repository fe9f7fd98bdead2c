// The effect sequences that run over the shared stores: publication, audit delivery, restoration, consumer
// reservation, ingestion recovery and outbox delivery. Between any two awaits anybody else may update the stores, and
// any call may throw before or after it took effect.
module ExpiryProtocols {
  import opened Wrappers
  import opened ExpiryEpisodes
  import opened AuditSink
  import opened EpisodeSystem
  import opened EpisodeProofs
  import opened ExpiryStore

  /** `ScheduleFailed` is thrown too: the schedule's own error, joined by the marker's if the report failed as well. */
  datatype PublishOutcome = PublishSucceeded | PublishDeclined | PublishThrew | ScheduleFailed(reported: bool)

  datatype Restoration = RestorationClosed | RestorationRetained | RestorationMissingOrReplaced

  datatype Reservation = IgnoredStaleEnvelope | IgnoredAlreadyClaimed | ClaimAcquired | ClaimResumed

  /** `UnexpectedClaimResult` is the throw "CAS failed without a durable state change". */
  datatype ReservationResult =
    | Answered(reservation: Reservation)
    | InvalidEnvelope | Throttled | GateFailed | CallFailed | UnexpectedClaimResult

  datatype GateOutcome = GateEligible | GateThrottled | GateUnexpected

  datatype DeliveryOutcome = DeliveryAcknowledged(resolution: nat) | NothingDelivered | DeliveryThrew

  datatype LoginOutcome = LoginSucceeded | LoginNotSucceeded | LoginThrew

  datatype Recovery =
    | LockBusy | ExecutionFailed | LoginRefused | RecollectionFailed | Recollected(closed: bool)
    | IdentityReused

  /** Two identities of one bank with the same run are the same identity. */
  lemma RunDeterminesIdentity(s: State, id: Id)
    requires Inv(s) && id in s.used
    requires id.bankCode in s.episodes && s.episodes[id.bankCode].id.runId == id.runId
    ensures s.episodes[id.bankCode].id == id
  {
  }

  function EpisodeAt(s: State, id: Id): Option<Episode> {
    if Current(s, id) then Some(s.episodes[id.bankCode]) else None
  }

  // ---- publication ------------------------------------------------------------------------------------------

  /** A publication still in progress under this token, whose failure nobody has reported. */
  predicate Unreported(s: State, id: Id, token: string) {
    Current(s, id) && CanUpdate(ReportFailure(token), s.episodes[id.bankCode], s.now)
  }

  /** A publication in progress under this token, that nothing stands in the way of. */
  predicate InProgress(e: Option<Episode>, token: string) {
    e.Some? && !e.value.restoredAudit && e.value.publication == Publishing && e.value.publicationToken == Some(token)
  }

  /** A publication nobody has taken up, or whose publisher has failed or timed out. */
  predicate ToBePublished(e: Episode, now: int) {
    && Claimable(e)
    && (|| e.publication == Pending
        || (e.publication == Publishing
            && (e.failureReportedAt.Some? || now - e.updatedAt > PUBLICATION_CLAIM_TIMEOUT_MS)))
  }

  /** The report of a failed schedule; the call may be lost before or after it took effect. */
  method ReportScheduleFailure(store: ExpiryStore, id: Id, token: string, quiet: bool) returns (reported: bool)
    requires store.Valid() && Nonblank(token)
    modifies store
    ensures store.Valid() && Later(old(store.View()), store.View()) && store.open == old(store.open)
    ensures reported ==> !Unreported(store.View(), id, token)
    ensures quiet ==> reported
    ensures quiet && InProgress(old(EpisodeAt(store.View(), id)), token)
            && old(EpisodeAt(store.View(), id)).value.failureReportedAt.None? ==>
              EpisodeAt(store.View(), id)
              == Some(old(EpisodeAt(store.View(), id)).value.(failureReportedAt := Some(store.now),
                                                              updatedAt := store.now))
  {
    BookkeepingKeeps(store.View(), Elapse(0));
    if Current(store.View(), id) { UpdatesExactly(ReportFailure(token), store.episodes[id.bankCode], store.now); }
    var lost := Fails(quiet);
    if lost { return false; }
    var marked := store.UpdatePublication(id, ReportFailure(token));
    var replyLost := Fails(quiet);
    reported := !replyLost;
  }

  /**
   * The claimed publication is scheduled, and marked published or, when scheduling throws, reported as failed;
   * `schedules` says which.
   */
  method ScheduleClaimed(store: ExpiryStore, id: Id, token: string, mine: set<Ticket>, schedules: bool, quiet: bool)
      returns (r: PublishOutcome)
    requires store.Valid() && mine <= store.open && Nonblank(token)
    modifies store
    ensures store.Valid() && Later(old(store.View()), store.View()) && mine <= store.open
    ensures r == PublishSucceeded ==> Current(store.View(), id) && store.episodes[id.bankCode].publication == Published
    ensures if schedules then r in {PublishSucceeded, PublishDeclined} else r.ScheduleFailed?
    ensures r == ScheduleFailed(true) ==> !Unreported(store.View(), id, token)
    ensures quiet && InProgress(old(EpisodeAt(store.View(), id)), token) ==>
              (r == if schedules then PublishSucceeded else ScheduleFailed(true))
  {
    store.Await(mine, quiet);
    ghost var before := store.View();
    if Current(before, id) { UpdatesExactly(MarkPublished(token), store.episodes[id.bankCode], store.now); }
    if !schedules {
      var reported := ReportScheduleFailure(store, id, token, quiet);
      r := ScheduleFailed(reported);
    } else {
      var marked := store.UpdatePublication(id, MarkPublished(token));
      if marked == Yes { UpdateLeavesExactly(MarkPublished(token), before.episodes[id.bankCode], before.now); }
      r := if marked == Threw then PublishThrew else if marked == Yes then PublishSucceeded else PublishDeclined;
    }
    LaterTransitive(old(store.View()), before, store.View());
  }

  /** A publication that is claimed stays under its token, so a report made under that token is about it. */
  lemma ReportedIsNotInProgress(s: State, t: State, id: Id, token: string)
    requires Later(s, t) && id in s.used && Current(s, id) && s.episodes[id.bankCode].publication == Publishing
    requires s.episodes[id.bankCode].publicationToken == Some(token) && !Unreported(t, id, token)
    ensures Current(t, id) && t.episodes[id.bankCode].publication == Publishing ==>
              t.episodes[id.bankCode].failureReportedAt.Some?
  {
  }

  /** A claim of the publication under its own token, if it has one. */
  method ClaimToPublish(store: ExpiryStore, id: Id, token: string) returns (answer: Answer)
    requires store.Valid()
    modifies store
    ensures store.Valid() && Later(old(store.View()), store.View()) && store.open == old(store.open)
    ensures answer == Yes ==> Nonblank(token) && InProgress(EpisodeAt(store.View(), id), token)
    ensures answer != Yes ==> store.View() == old(store.View())
    ensures answer == Threw <==> !Nonblank(token)
    ensures answer == Yes <==>
              && Nonblank(token) && old(EpisodeAt(store.View(), id)).Some?
              && var e := old(EpisodeAt(store.View(), id)).value;
                 ToBePublished(e, old(store.now)) && (e.publication == Publishing ==> e.publicationToken == Some(token))
    ensures answer == Yes ==>
              EpisodeAt(store.View(), id)
              == Some(old(EpisodeAt(store.View(), id)).value.(
                   publication := Publishing, publicationToken := Some(token), failureReportedAt := None,
                   updatedAt := store.now))
  {
    ghost var before := store.View();
    if Current(before, id) && Nonblank(token) {
      UpdatesExactly(ClaimPublication(token), store.episodes[id.bankCode], store.now);
    }
    answer := store.UpdatePublication(id, ClaimPublication(token));
    if answer == Yes { UpdateLeavesExactly(ClaimPublication(token), before.episodes[id.bankCode], before.now); }
  }

  method ClaimAndSchedule(store: ExpiryStore, id: Id, token: string, mine: set<Ticket>, schedules: bool, quiet: bool)
      returns (r: PublishOutcome)
    requires store.Valid() && mine <= store.open && id in store.used
    modifies store
    ensures store.Valid() && Later(old(store.View()), store.View()) && mine <= store.open
    ensures r == PublishSucceeded ==> Current(store.View(), id) && store.episodes[id.bankCode].publication == Published
    ensures r == ScheduleFailed(true) && Current(store.View(), id) ==>
              store.episodes[id.bankCode].publication == Publishing ==>
                store.episodes[id.bankCode].failureReportedAt.Some?
    ensures r == PublishThrew <==> !Nonblank(token)
    ensures quiet && Nonblank(token) && old(EpisodeAt(store.View(), id)).Some?
            && (old(EpisodeAt(store.View(), id)).value.publication == Publishing ==>
                  old(EpisodeAt(store.View(), id)).value.publicationToken == Some(token)) ==>
              r == if !ToBePublished(old(EpisodeAt(store.View(), id)).value, old(store.now)) then PublishDeclined
                   else if schedules then PublishSucceeded else ScheduleFailed(true)
  {
    var claimed := ClaimToPublish(store, id, token);
    if claimed != Yes { return if claimed == Threw then PublishThrew else PublishDeclined; }
    ghost var before := store.View();
    r := ScheduleClaimed(store, id, token, mine, schedules, quiet);
    LaterTransitive(old(store.View()), before, store.View());
    if r == ScheduleFailed(true) { ReportedIsNotInProgress(before, store.View(), id, token); }
  }

  /** What a quiet publication comes to, by the episode as it is found. */
  function PublishedAs(e: Option<Episode>, now: int, schedules: bool): PublishOutcome {
    if e.None? || e.value.restoredAudit then PublishDeclined
    else if e.value.publication == Published then PublishSucceeded
    else if !ToBePublished(e.value, now) then PublishDeclined
    else if schedules then PublishSucceeded
    else ScheduleFailed(true)
  }

  /** The "expired" audit makes no difference to a publication. */
  lemma AuditedPublishesAlike(e: Episode, now: int, schedules: bool)
    ensures PublishedAs(Some(MarkAudit(e, ExpiredAudit)), now, schedules) == PublishedAs(Some(e), now, schedules)
  {
  }

  method PublishExpiryEpisode(store: ExpiryStore, id: Id, proposedToken: string, mine: set<Ticket>, schedules: bool,
      quiet: bool)
    returns (r: PublishOutcome)
    requires store.Valid() && mine <= store.open && id in store.used
    modifies store
    ensures store.Valid() && Later(old(store.View()), store.View()) && mine <= store.open
    ensures r == PublishSucceeded && Current(store.View(), id) ==> store.episodes[id.bankCode].publication == Published
    // A failed schedule that was reported leaves no publication in progress that has to wait for its timeout.
    ensures r == ScheduleFailed(true) && Current(store.View(), id) ==>
              store.episodes[id.bankCode].publication == Publishing ==>
                store.episodes[id.bankCode].failureReportedAt.Some?
    ensures !Nonblank(proposedToken) ==> r == PublishThrew
    ensures quiet && Nonblank(proposedToken) ==>
              r == PublishedAs(old(EpisodeAt(store.View(), id)), old(store.now), schedules)
  {
    var durable := store.FindByBankCode(id.bankCode);
    store.Await(mine, quiet);
    if !Nonblank(proposedToken) { return PublishThrew; }
    if durable.None? || durable.value.id != id || durable.value.restoredAudit { return PublishDeclined; }
    var token := if durable.value.publicationToken.Some? then durable.value.publicationToken.value else proposedToken;
    if durable.value.publication == Published {
      var observeThrows := Fails(quiet);
      return if observeThrows then PublishThrew else PublishSucceeded;
    }
    ghost var claiming := store.View();
    r := ClaimAndSchedule(store, id, token, mine, schedules, quiet);
    LaterTransitive(old(store.View()), claiming, store.View());
  }

  // ---- audits and restoration -------------------------------------------------------------------------------

  /** With the event in the sink its flag may be marked, whichever episode of this run is there. */
  lemma MarkingIsAllowed(s: State, id: Id, kind: AuditKind)
    requires Inv(s) && id in s.used && SessionEvent(kind, id.bankCode, id.expiredEventId) in s.events
    ensures Allowed(s, MarkDelivered(id.bankCode, id.runId, kind))
  {
  }

  /** The mark, or the discovery that it is there already. */
  method MarkNow(store: ExpiryStore, id: Id, kind: AuditKind) returns (delivered: bool)
    requires store.Valid() && id in store.used
    requires SessionEvent(kind, id.bankCode, id.expiredEventId) in store.events
    modifies store
    ensures store.Valid() && Later(old(store.View()), store.View())
    ensures store.open == old(store.open) && store.events == old(store.events) && store.now == old(store.now)
    ensures Current(old(store.View()), id) ==>
              delivered && EpisodeAt(store.View(), id) == Some(MarkAudit(old(store.episodes)[id.bankCode], kind))
    ensures Current(store.View(), id) <==> Current(old(store.View()), id)
  {
    MarkingIsAllowed(store.View(), id, kind);
    ghost var before := store.View();
    var marked := store.MarkAuditDelivered(id.bankCode, id.runId, kind);
    if Current(before, id) && AuditFlag(before.episodes[id.bankCode], kind) {
      MarkLeavesExactly(before.episodes[id.bankCode], kind);
    }
    if marked { return true; }
    delivered := store.IsAuditDelivered(id.bankCode, id.runId, kind);
  }

  /** The event is in the sink: mark its flag, or find that somebody else has. */
  method MarkRecorded(store: ExpiryStore, id: Id, kind: AuditKind, mine: set<Ticket>, quiet: bool)
      returns (delivered: bool)
    requires store.Valid() && mine <= store.open && id in store.used
    requires SessionEvent(kind, id.bankCode, id.expiredEventId) in store.events
    modifies store
    ensures store.Valid() && Later(old(store.View()), store.View()) && mine <= store.open
    ensures SessionEvent(kind, id.bankCode, id.expiredEventId) in store.events
    ensures quiet && Current(old(store.View()), id) ==>
              delivered && EpisodeAt(store.View(), id) == Some(MarkAudit(old(store.episodes)[id.bankCode], kind))
    ensures quiet ==> (Current(store.View(), id) <==> Current(old(store.View()), id)) && store.now == old(store.now)
  {
    store.Await(mine, quiet);
    var replyLost := Fails(quiet);
    if replyLost { return false; }
    ghost var before := store.View();
    delivered := MarkNow(store, id, kind);
    LaterTransitive(old(store.View()), before, store.View());
  }

  /**
   * True only with the event in the sink; every failure, thrown or not, is `false`. A quiet delivery to a current
   * episode succeeds, unless the audit is new and there is no sink.
   */
  method DeliverExpiryEpisodeAudit(store: ExpiryStore, hasSink: bool, id: Id, kind: AuditKind,
      mine: set<Ticket>, quiet: bool) returns (delivered: bool)
    requires store.Valid() && mine <= store.open && id in store.used
    modifies store
    ensures store.Valid() && Later(old(store.View()), store.View()) && mine <= store.open
    ensures delivered ==> SessionEvent(kind, id.bankCode, id.expiredEventId) in store.events
    ensures quiet && Current(old(store.View()), id) ==>
              && (delivered <==> hasSink || AuditFlag(old(store.episodes)[id.bankCode], kind))
              && EpisodeAt(store.View(), id)
                 == Some(if delivered then MarkAudit(old(store.episodes)[id.bankCode], kind)
                         else old(store.episodes)[id.bankCode])
    ensures quiet && !Current(old(store.View()), id) ==> !Current(store.View(), id)
    ensures quiet ==> store.now == old(store.now)
  {
    var event := SessionEvent(kind, id.bankCode, id.expiredEventId);
    store.Await(mine, quiet);
    var lookupThrows := Fails(quiet);
    if lookupThrows { return false; }
    var already := store.IsAuditDelivered(id.bankCode, id.runId, kind);
    if already {
      RunDeterminesIdentity(store.View(), id);
      MarkLeavesExactly(store.episodes[id.bankCode], kind);
      return true;
    }
    if !hasSink { return false; }
    ghost var recording := store.View();
    store.RecordAudit(event);
    LaterTransitive(old(store.View()), recording, store.View());
    ghost var marking := store.View();
    delivered := MarkRecorded(store, id, kind, mine, quiet);
    LaterTransitive(old(store.View()), marking, store.View());
  }

  /** Only what is still there under this exact identity is worth another try. */
  method ReconcileRestoration(store: ExpiryStore, id: Id, mine: set<Ticket>, quiet: bool) returns (r: Restoration)
    requires store.Valid() && mine <= store.open
    modifies store
    ensures store.Valid() && Later(old(store.View()), store.View()) && mine <= store.open
    ensures r != RestorationClosed
    ensures r == RestorationMissingOrReplaced ==> !Current(store.View(), id)
    ensures quiet ==>
              && store.View() == old(store.View())
              && r == if Current(store.View(), id) then RestorationRetained else RestorationMissingOrReplaced
  {
    store.Await(mine, quiet);
    var lookupThrows := Fails(quiet);
    if lookupThrows { return RestorationRetained; }
    var current := store.FindByBankCode(id.bankCode);
    return if current.Some? && current.value.id == id then RestorationRetained else RestorationMissingOrReplaced;
  }

  /** A resolved claim that came from a scrape: its publication is pending for ever, and cannot be cancelled. */
  predicate ResolvedScrape(s: State, id: Id) {
    && Current(s, id) && s.episodes[id.bankCode].attempt == Some(Resolved)
    && s.episodes[id.bankCode].source == Some(ScrapeTime)
  }

  lemma ResolvedScrapeStays(s: State, t: State, id: Id)
    requires Inv(s) && Inv(t) && Later(s, t) && ResolvedScrape(s, id) && Current(t, id)
    ensures ResolvedScrape(t, id)
  {
    assert id in s.used && EvolvesTo(s.episodes[id.bankCode], t.episodes[id.bankCode]);
    var a := t.episodes[id.bankCode].attempt.value;
    assert a.Reserved? || a.MutationStarted? || a.ManualRecoveryRequired? || a.Resolved?;
  }

  /** Cancelling what a scrape has resolved throws. */
  lemma ResolvedScrapeThrows(s: State, id: Id)
    requires Inv(s) && ResolvedScrape(s, id)
    ensures CanUpdate(CancelPublication, s.episodes[id.bankCode], s.now)
  {
    assert WellFormed(s.episodes[id.bankCode]);
  }

  /**
   * Cancels and closes; either step may throw, and a cancellation that throws leaves the episode alone. So what a
   * scrape has resolved is never closed, whoever interferes; a quiet call closes everything else that can be closed.
   */
  method CancelAndClose(store: ExpiryStore, id: Id, mine: set<Ticket>, quiet: bool) returns (closed: bool)
    requires store.Valid() && mine <= store.open && id in store.used
    modifies store
    ensures store.Valid() && Later(old(store.View()), store.View()) && mine <= store.open
    ensures closed ==> !Current(store.View(), id) && Ticket(ActiveAlert, id) in store.open
    ensures closed ==> Current(old(store.View()), id) && !ResolvedScrape(old(store.View()), id)
    ensures quiet && Current(old(store.View()), id) ==>
              && (closed <==> Closable(old(store.View()), id) && !ResolvedScrape(old(store.View()), id))
              && (Current(store.View(), id) <==> !closed)
  {
    if ResolvedScrape(store.View(), id) { ResolvedScrapeThrows(store.View(), id); }
    var cancelled := Cancel(store, id);
    if cancelled == Threw { return false; }
    ghost var between := store.View();
    store.Await(mine, quiet);
    LaterTransitive(old(store.View()), between, store.View());
    ghost var closing := store.View();
    var result := store.Close(id);
    LaterTransitive(old(store.View()), closing, store.View());
    closed := result == Closed;
    var replyLost := Fails(quiet);
    if replyLost { return false; }
  }

  /** The cancellation: it throws exactly on a publication still open that a scrape's claim is bound to. */
  method Cancel(store: ExpiryStore, id: Id) returns (answer: Answer)
    requires store.Valid()
    modifies store
    ensures store.Valid() && Later(old(store.View()), store.View()) && store.open == old(store.open)
    ensures answer == Threw <==>
              && Current(old(store.View()), id)
              && CanUpdate(CancelPublication, old(store.episodes)[id.bankCode], old(store.now))
              && old(store.episodes)[id.bankCode].source == Some(ScrapeTime)
    ensures Current(old(store.View()), id) ==>
              && Current(store.View(), id)
              && store.episodes[id.bankCode].attempt == old(store.episodes)[id.bankCode].attempt
              && store.episodes[id.bankCode].source == old(store.episodes)[id.bankCode].source
              && (answer == Yes ==> store.episodes[id.bankCode].publication == Cancelled)
    ensures answer != Yes ==> store.View() == old(store.View())
  {
    ghost var before := store.View();
    answer := store.UpdatePublication(id, CancelPublication);
    if answer == Yes { UpdateLeavesExactly(CancelPublication, before.episodes[id.bankCode], before.now); }
  }

  /** Both audits, the second only after the first. */
  method DeliverBoth(store: ExpiryStore, hasSink: bool, id: Id, mine: set<Ticket>, quiet: bool)
      returns (delivered: bool)
    requires store.Valid() && mine <= store.open && id in store.used
    modifies store
    ensures store.Valid() && Later(old(store.View()), store.View()) && mine <= store.open
    ensures delivered ==>
              && SessionEvent(ExpiredAudit, id.bankCode, id.expiredEventId) in store.events
              && SessionEvent(RestoredAudit, id.bankCode, id.expiredEventId) in store.events
    ensures quiet && Current(old(store.View()), id) ==>
              var e := old(store.episodes)[id.bankCode];
              && (delivered <==> hasSink || (e.expiredAudit && e.restoredAudit))
              && Current(store.View(), id)
              && (delivered ==>
                    store.episodes[id.bankCode] == MarkAudit(MarkAudit(e, ExpiredAudit), RestoredAudit))
    ensures quiet && !Current(old(store.View()), id) ==> !Current(store.View(), id)
  {
    delivered := DeliverExpiryEpisodeAudit(store, hasSink, id, ExpiredAudit, mine, quiet);
    if !delivered { return; }
    ghost var second := store.View();
    delivered := DeliverExpiryEpisodeAudit(store, hasSink, id, RestoredAudit, mine, quiet);
    LaterTransitive(old(store.View()), second, store.View());
  }

  /** What both audits leave of a claim. */
  lemma RestoredClaim(e: Episode)
    requires WellFormed(e)
    ensures var f := MarkAudit(MarkAudit(e, ExpiredAudit), RestoredAudit);
            && (f.attempt.None? <==> e.attempt.None? || e.attempt == Some(Reserved))
            && (f.attempt.Some? ==> f.attempt == e.attempt && f.source == e.source)
            && (ClosedByRestoration(e) <==>
                  CanClose(f) && !(f.attempt == Some(Resolved) && f.source == Some(ScrapeTime)))
  {
    assert e.attempt.Some? ==>
        var a := e.attempt.value; a.Reserved? || a.MutationStarted? || a.ManualRecoveryRequired? || a.Resolved?;
  }

  /** What a quiet restoration closes. */
  predicate ClosedByRestoration(e: Episode) {
    e.attempt.None? || e.attempt == Some(Reserved) || (e.attempt == Some(Resolved) && e.source != Some(ScrapeTime))
  }

  /**
   * Restores one durable episode. "Closed" means this very call removed it - so the caller holds the only ticket for
   * its "active" alert - and the sink holds exactly one expired and exactly one restored event for it. What a scrape
   * has resolved is never closed. A quiet restoration with a sink closes exactly an unclaimed, a merely reserved, or a
   * resolved episode that no scrape has claimed.
   */
  method RestoreExpiryEpisode(store: ExpiryStore, hasSink: bool, id: Id, mine: set<Ticket>, quiet: bool)
      returns (r: Restoration)
    requires store.Valid() && mine <= store.open && id in store.used
    modifies store
    ensures store.Valid() && Later(old(store.View()), store.View()) && mine <= store.open
    ensures r == RestorationClosed ==>
              && !Current(store.View(), id)
              && Ticket(ActiveAlert, id) in store.open
              && Occurrences(SessionEvent(ExpiredAudit, id.bankCode, id.expiredEventId), store.events) == 1
              && Occurrences(SessionEvent(RestoredAudit, id.bankCode, id.expiredEventId), store.events) == 1
    ensures r == RestorationMissingOrReplaced ==> !Current(store.View(), id)
    ensures ResolvedScrape(old(store.View()), id) ==> r != RestorationClosed
    ensures quiet && Current(old(store.View()), id) ==>
              var e := old(store.episodes)[id.bankCode];
              r == if (hasSink || (e.expiredAudit && e.restoredAudit)) && ClosedByRestoration(e) then RestorationClosed
                   else RestorationRetained
    ensures quiet && !Current(old(store.View()), id) ==> r == RestorationMissingOrReplaced
  {
    ghost var start := store.View();
    if Current(start, id) { RestoredClaim(start.episodes[id.bankCode]); }
    var delivered := DeliverBoth(store, hasSink, id, mine, quiet);
    ghost var third := store.View();
    if delivered {
      if ResolvedScrape(start, id) && Current(third, id) { ResolvedScrapeStays(start, third, id); }
      var closed := CancelAndClose(store, id, mine, quiet);
      LaterTransitive(start, third, store.View());
      if closed {
        DistinctOccursOnce(SessionEvent(ExpiredAudit, id.bankCode, id.expiredEventId), store.events);
        DistinctOccursOnce(SessionEvent(RestoredAudit, id.bankCode, id.expiredEventId), store.events);
        return RestorationClosed;
      }
    }
    ghost var fourth := store.View();
    r := ReconcileRestoration(store, id, mine, quiet);
    LaterTransitive(start, fourth, store.View());
  }

  // ---- the publication consumer -----------------------------------------------------------------------------

  predicate CurrentPublished(durable: Option<Episode>, id: Id, token: string) {
    durable.Some? && !durable.value.restoredAudit && durable.value.publication == Published
    && durable.value.id == id && durable.value.publicationToken == Some(token)
  }

  function ClassifyCurrent(durable: Option<Episode>, id: Id, token: string, claimToken: string): Option<Reservation> {
    if !CurrentPublished(durable, id, token) then Some(IgnoredStaleEnvelope)
    else if durable.value.attempt == Some(Reserved) && durable.value.claimToken == Some(claimToken)
        then Some(ClaimResumed)
    else if Claimed(durable.value.claimToken) then Some(IgnoredAlreadyClaimed)
    else None
  }

  function Find(s: State, bankCode: string): Option<Episode> {
    if bankCode in s.episodes then Some(s.episodes[bankCode]) else None
  }

  /**
   * The heart of the unreachable throw: an envelope that was current and unclaimed, then refused by the claim, can
   * never look current and unclaimed again, whatever happens before and after the refusal.
   */
  lemma RefusedClaimStaysExplained(s: State, t: State, u: State, id: Id, token: string, claimToken: string)
    requires Inv(s) && Inv(t) && Inv(u) && Later(s, t) && Later(t, u) && Nonblank(claimToken)
    requires ClassifyCurrent(Find(s, id.bankCode), id, token, claimToken).None?
    requires !(Current(t, id) && CanUpdate(ClaimConsumer(token, claimToken), t.episodes[id.bankCode], t.now))
    ensures ClassifyCurrent(Find(u, id.bankCode), id, token, claimToken).Some?
  {
  }

  /** The reload after a refused claim always finds the reason. */
  method ExplainRefusal(store: ExpiryStore, id: Id, token: string, claimToken: string, ghost seen: State, quiet: bool)
      returns (r: ReservationResult)
    requires store.Valid() && Nonblank(claimToken) && Inv(seen) && Later(seen, store.View())
    requires ClassifyCurrent(Find(seen, id.bankCode), id, token, claimToken).None?
    requires !(Current(store.View(), id)
        && CanUpdate(ClaimConsumer(token, claimToken), store.episodes[id.bankCode], store.now))
    modifies store
    ensures store.Valid() && Later(old(store.View()), store.View())
    ensures r.Answered? && r.reservation != ClaimAcquired
  {
    ghost var refused := store.View();
    store.Await({}, quiet);
    RefusedClaimStaysExplained(seen, refused, store.View(), id, token, claimToken);
    var reloaded := store.FindByBankCode(id.bankCode);
    var final := ClassifyCurrent(reloaded, id, token, claimToken);
    return if final.Some? then Answered(final.value) else UnexpectedClaimResult;
  }

  /** The claim of an envelope: it goes through exactly on an episode under this envelope that is still claimable. */
  method ClaimEnvelope(store: ExpiryStore, id: Id, token: string, claimToken: string) returns (answer: Answer)
    requires store.Valid()
    modifies store
    ensures store.Valid() && Later(old(store.View()), store.View()) && store.open == old(store.open)
    ensures answer == Threw <==> !Nonblank(claimToken)
    ensures answer == Yes <==>
              && Nonblank(claimToken) && old(EpisodeAt(store.View(), id)).Some?
              && Claimable(old(EpisodeAt(store.View(), id)).value)
              && Envelope(old(EpisodeAt(store.View(), id)).value, token)
    ensures answer == Yes ==>
              EpisodeAt(store.View(), id)
              == Some(old(EpisodeAt(store.View(), id)).value.(claimToken := Some(claimToken), attempt := Some(Reserved),
                                                              updatedAt := store.now))
    ensures answer != Yes ==> store.View() == old(store.View())
    ensures answer == No ==>
              !(Current(store.View(), id)
                && CanUpdate(ClaimConsumer(token, claimToken), store.episodes[id.bankCode], store.now))
  {
    if Current(store.View(), id) && Nonblank(claimToken) {
      UpdatesExactly(ClaimConsumer(token, claimToken), store.episodes[id.bankCode], store.now);
    }
    answer := store.UpdatePublication(id, ClaimConsumer(token, claimToken));
  }

  /** The claim itself, after an envelope read as `seen` was found current and unclaimed and the gate let it through. */
  method ClaimOrExplain(store: ExpiryStore, id: Id, token: string, claimToken: string, ghost seen: State, quiet: bool)
    returns (r: ReservationResult)
    requires store.Valid() && Nonblank(claimToken)
    requires Inv(seen) && Later(seen, store.View())
    requires ClassifyCurrent(Find(seen, id.bankCode), id, token, claimToken).None?
    modifies store
    ensures store.Valid() && Later(old(store.View()), store.View())
    ensures r.Answered? || r.CallFailed?
    ensures r == Answered(ClaimAcquired) ==>
              Current(store.View(), id) && store.episodes[id.bankCode].attempt == Some(Reserved)
              && store.episodes[id.bankCode].claimToken == Some(claimToken)
    ensures quiet && old(EpisodeAt(store.View(), id)).Some?
            && Claimable(old(EpisodeAt(store.View(), id)).value)
            && Envelope(old(EpisodeAt(store.View(), id)).value, token) ==>
              r == Answered(ClaimAcquired)
  {
    var claimed := ClaimEnvelope(store, id, token, claimToken);
    var replyLost := Fails(quiet);
    if claimed == Yes { return if replyLost then CallFailed else Answered(ClaimAcquired); }
    if claimed == Threw || replyLost { return CallFailed; }
    r := ExplainRefusal(store, id, token, claimToken, seen, quiet);
  }

  /** What a quiet reservation comes to: the envelope, then whose claim is on the episode, then the gate decides. */
  function ReservedAs(e: Option<Episode>, token: string, claimToken: string, gate: GateOutcome): ReservationResult {
    if e.None? || e.value.restoredAudit || !Envelope(e.value, token) then Answered(IgnoredStaleEnvelope)
    else if e.value.attempt.Some? then
      Answered(if e.value.attempt == Some(Reserved) && e.value.claimToken == Some(claimToken) then ClaimResumed
               else IgnoredAlreadyClaimed)
    else
      match gate
      case GateThrottled => Throttled
      case GateUnexpected => GateFailed
      case GateEligible => Answered(ClaimAcquired)
  }

  lemma ClassifiedAs(s: State, id: Id, token: string, claimToken: string, gate: GateOutcome)
    requires Inv(s)
    ensures var e := EpisodeAt(s, id);
            match ClassifyCurrent(Find(s, id.bankCode), id, token, claimToken)
            case Some(reservation) => ReservedAs(e, token, claimToken, gate) == Answered(reservation)
            case None =>
              && e.Some? && Claimable(e.value) && Envelope(e.value, token)
              && ReservedAs(e, token, claimToken, gate)
                 == if gate == GateThrottled then Throttled
                    else if gate == GateUnexpected then GateFailed else Answered(ClaimAcquired)
  {
    if Current(s, id) { assert WellFormed(s.episodes[id.bankCode]); }
  }

  /** The start gate, and the claim behind it. */
  method PassGate(store: ExpiryStore, id: Id, token: string, claimToken: string, gate: GateOutcome, ghost seen: State,
      quiet: bool)
    returns (r: ReservationResult)
    requires store.Valid() && Nonblank(claimToken)
    requires Inv(seen) && Later(seen, store.View())
    requires ClassifyCurrent(Find(seen, id.bankCode), id, token, claimToken).None?
    modifies store
    ensures store.Valid() && Later(old(store.View()), store.View())
    ensures match gate
            case GateThrottled => r == Throttled
            case GateUnexpected => r == GateFailed
            case GateEligible => r.Answered? || r.CallFailed?
    ensures r == Answered(ClaimAcquired) ==>
              Current(store.View(), id) && store.episodes[id.bankCode].attempt == Some(Reserved)
              && store.episodes[id.bankCode].claimToken == Some(claimToken)
    ensures quiet && gate == GateEligible && old(EpisodeAt(store.View(), id)).Some?
            && Claimable(old(EpisodeAt(store.View(), id)).value)
            && Envelope(old(EpisodeAt(store.View(), id)).value, token) ==>
              r == Answered(ClaimAcquired)
  {
    BookkeepingKeeps(store.View(), Elapse(0));
    if gate != GateEligible { return if gate == GateThrottled then Throttled else GateFailed; }
    r := ClaimOrExplain(store, id, token, claimToken, seen, quiet);
  }

  /** `claimToken` is the hex digest of the envelope, so never blank. */
  method ReserveConsumerClaim(store: ExpiryStore, id: Id, token: string, claimToken: string, gate: GateOutcome,
      quiet: bool)
    returns (r: ReservationResult)
    requires store.Valid() && Nonblank(claimToken)
    modifies store
    ensures store.Valid() && Later(old(store.View()), store.View())
    ensures r != UnexpectedClaimResult
    ensures r == Answered(ClaimAcquired) ==>
              Current(store.View(), id) && store.episodes[id.bankCode].attempt == Some(Reserved)
              && store.episodes[id.bankCode].claimToken == Some(claimToken)
    ensures r.Throttled? ==> gate == GateThrottled
    ensures r.GateFailed? ==> gate == GateUnexpected
    ensures r.InvalidEnvelope? <==>
              !(Nonblank(id.bankCode) && Nonblank(id.expiredEventId) && Nonblank(id.runId) && Nonblank(token))
    ensures quiet && !r.InvalidEnvelope? ==>
              r == ReservedAs(old(EpisodeAt(store.View(), id)), token, claimToken, gate)
  {
    ghost var seen := store.View();
    ClassifiedAs(seen, id, token, claimToken, gate);
    var durable := store.FindByBankCode(id.bankCode);
    store.Await({}, quiet);
    if !(Nonblank(id.bankCode) && Nonblank(id.expiredEventId) && Nonblank(id.runId)
        && Nonblank(token)) { return InvalidEnvelope; }
    var initial := ClassifyCurrent(durable, id, token, claimToken);
    if initial.Some? { return Answered(initial.value); }
    ghost var before := store.View();
    r := PassGate(store, id, token, claimToken, gate, seen, quiet);
    LaterTransitive(old(store.View()), before, store.View());
  }

  // ---- ingestion recovery -----------------------------------------------------------------------------------

  /** A mutation of this claim, reached by this envelope and without a lease. */
  predicate Mutating(e: Option<Episode>, token: string, claimToken: string) {
    && e.Some? && e.value.attempt == Some(MutationStarted) && Envelope(e.value, token)
    && e.value.claimToken == Some(claimToken) && e.value.source.None? && e.value.lease.None?
  }

  /** The ingestion path marks a publication as published without scheduling any job for it. */
  method PublishWithoutSchedule(store: ExpiryStore, id: Id, token: string, quiet: bool) returns (published: bool)
    requires store.Valid()
    modifies store
    ensures store.Valid() && Later(old(store.View()), store.View())
    ensures published ==> Current(store.View(), id) && store.episodes[id.bankCode].publication == Published
                          && store.episodes[id.bankCode].publicationToken == Some(token)
    ensures quiet && Nonblank(token) && old(EpisodeAt(store.View(), id)).Some? ==>
              var e := old(EpisodeAt(store.View(), id)).value;
              && (published <==>
                    ToBePublished(e, old(store.now))
                    && (e.publication == Publishing ==> e.publicationToken == Some(token)))
              && (published ==>
                    Claimable(EpisodeAt(store.View(), id).value) && Envelope(EpisodeAt(store.View(), id).value, token))
  {
    ghost var start := store.View();
    var claimed := ClaimToPublish(store, id, token);
    ghost var before := store.View();
    store.Await({}, quiet);
    LaterTransitive(start, before, store.View());
    var replyLost := Fails(quiet);
    if claimed != Yes || replyLost { return false; }
    ghost var marking := store.View();
    published := MarkPublishedNow(store, id, token);
    LaterTransitive(start, marking, store.View());
  }

  method MarkPublishedNow(store: ExpiryStore, id: Id, token: string) returns (published: bool)
    requires store.Valid() && Nonblank(token)
    modifies store
    ensures store.Valid() && Later(old(store.View()), store.View())
    ensures published ==> Current(store.View(), id) && store.episodes[id.bankCode].publication == Published
                          && store.episodes[id.bankCode].publicationToken == Some(token)
    ensures published <==> InProgress(old(EpisodeAt(store.View(), id)), token)
    ensures published ==>
              EpisodeAt(store.View(), id)
              == Some(old(EpisodeAt(store.View(), id)).value.(publication := Published, failureReportedAt := None,
                                                              updatedAt := store.now))
  {
    ghost var before := store.View();
    if Current(before, id) { UpdatesExactly(MarkPublished(token), store.episodes[id.bankCode], store.now); }
    var answer := store.UpdatePublication(id, MarkPublished(token));
    if answer == Yes { UpdateLeavesExactly(MarkPublished(token), before.episodes[id.bankCode], before.now); }
    published := answer == Yes;
  }

  method ClaimAndStart(store: ExpiryStore, id: Id, token: string, claimToken: string, quiet: bool)
      returns (started: bool)
    requires store.Valid() && Nonblank(claimToken)
    modifies store
    ensures store.Valid() && Later(old(store.View()), store.View())
    ensures started ==> Ticket(AutoLogin, id) in store.open && Ticket(AutoLogin, id) !in old(store.granted)
    ensures quiet && old(EpisodeAt(store.View(), id)).Some? ==>
              && (started <==>
                    && Claimable(old(EpisodeAt(store.View(), id)).value)
                    && Envelope(old(EpisodeAt(store.View(), id)).value, token))
              && (started ==> Mutating(EpisodeAt(store.View(), id), token, claimToken))
  {
    if Current(store.View(), id) { assert WellFormed(store.episodes[id.bankCode]); }
    var claimed := ClaimEnvelope(store, id, token, claimToken);
    ghost var starting := store.View();
    store.Await({}, quiet);
    LaterTransitive(old(store.View()), starting, store.View());
    var replyLost := Fails(quiet);
    if claimed != Yes || replyLost { return false; }
    ghost var claimedAt := store.View();
    started := StartClaimed(store, id, token, claimToken, quiet);
    LaterTransitive(old(store.View()), claimedAt, store.View());
  }

  method StartClaimed(store: ExpiryStore, id: Id, token: string, claimToken: string, quiet: bool)
      returns (started: bool)
    requires store.Valid() && Nonblank(claimToken)
    modifies store
    ensures store.Valid() && Later(old(store.View()), store.View())
    ensures started ==> Ticket(AutoLogin, id) in store.open && Ticket(AutoLogin, id) !in old(store.granted)
    ensures quiet && old(EpisodeAt(store.View(), id)).Some? ==>
              var e := old(EpisodeAt(store.View(), id)).value;
              && (started <==> ClaimedBy(e, token, claimToken, old(store.now)) && e.attempt == Some(Reserved))
              && (started && e.lease.None? && e.source.None? ==>
                    Mutating(EpisodeAt(store.View(), id), token, claimToken))
  {
    ghost var before := store.View();
    if Current(before, id) { UpdatesExactly(StartMutation(token, claimToken), store.episodes[id.bankCode], store.now); }
    var answer := store.UpdatePublication(id, StartMutation(token, claimToken));
    if answer == Yes {
      UpdateLeavesExactly(StartMutation(token, claimToken), before.episodes[id.bankCode], before.now);
    }
    var replyLost := Fails(quiet);
    started := answer == Yes && !replyLost;
  }

  /** The token of a publication is there, and proper, from the moment it is taken up. */
  lemma TokensFit(e: Episode)
    requires WellFormed(e)
    ensures e.publication in {Publishing, Published} ==> e.publicationToken.Some? && Nonblank(e.publicationToken.value)
    ensures e.publication in {Pending, Cancelled} ==> e.publicationToken.None?
  {
  }

  /** The publication as it is, or taken up and marked at once. */
  method MakePublished(store: ExpiryStore, episode: Episode, token: string, quiet: bool) returns (published: bool)
    requires store.Valid()
    modifies store
    ensures store.Valid() && Later(old(store.View()), store.View())
    ensures quiet && Nonblank(token) && EpisodeAt(old(store.View()), episode.id) == Some(episode)
            && (episode.publication in {Publishing, Published} ==> episode.publicationToken == Some(token)) ==>
              && (published <==> episode.publication == Published || ToBePublished(episode, old(store.now)))
              && (published ==>
                    && EpisodeAt(store.View(), episode.id).Some?
                    && Envelope(EpisodeAt(store.View(), episode.id).value, token)
                    && EpisodeAt(store.View(), episode.id).value.attempt == episode.attempt
                    && EpisodeAt(store.View(), episode.id).value.restoredAudit == episode.restoredAudit)
  {
    BookkeepingKeeps(store.View(), Elapse(0));
    published := episode.publication == Published;
    if !published { published := PublishWithoutSchedule(store, episode.id, token, quiet); }
    ghost var claiming := store.View();
    store.Await({}, quiet);
    LaterTransitive(old(store.View()), claiming, store.View());
  }

  /** An episode that can be published, claimed and started at once. */
  predicate Startable(e: Episode, now: int) { Claimable(e) && (e.publication == Published || ToBePublished(e, now)) }

  /**
   * Publishes if need be, claims, and marks the mutation as started. Success means this call started the only mutation
   * the identity will ever have, and holds the only ticket for its automatic login. A quiet call succeeds exactly on an
   * episode nobody has claimed, whose publication is done or free to be taken up.
   */
  method ReserveAutoLoginAttempt(store: ExpiryStore, episode: Episode, uuid: string, claimUuid: string, quiet: bool)
    returns (reserved: bool, token: string)
    requires store.Valid() && episode.id in store.used && Nonblank(uuid) && Nonblank(claimUuid)
    modifies store
    ensures store.Valid() && Later(old(store.View()), store.View())
    ensures reserved ==>
              && Ticket(AutoLogin, episode.id) in store.open
              && Ticket(AutoLogin, episode.id) !in old(store.granted)
    ensures quiet && EpisodeAt(old(store.View()), episode.id) == Some(episode) ==>
              && (reserved <==> Startable(episode, old(store.now)))
              && (reserved ==> Mutating(EpisodeAt(store.View(), episode.id), token, claimUuid))
  {
    token := if episode.publicationToken.Some? then episode.publicationToken.value else uuid;
    ghost var now := store.now;
    if EpisodeAt(store.View(), episode.id) == Some(episode) { TokensFit(episode); }
    var published := MakePublished(store, episode, token, quiet);
    if !published { return false, token; }
    ghost var claimed := store.View();
    reserved := ClaimAndStart(store, episode.id, token, claimUuid, quiet);
    LaterTransitive(old(store.View()), claimed, store.View());
  }

  /**
   * Best effort: a call that throws leaves the durable "mutation started" marker in place; one that does not leaves no
   * mutation of this claim running.
   */
  method RequireManualRecovery(store: ExpiryStore, id: Id, token: string, claimToken: string, quiet: bool)
      returns (settled: bool)
    requires store.Valid()
    modifies store
    ensures store.Valid() && Later(old(store.View()), store.View())
    // The claims of this path have no lease, and so are never left with their mutation running.
    ensures settled && Nonblank(claimToken) && Current(store.View(), id) ==>
              var e := store.episodes[id.bankCode];
              ClaimedBy(e, token, claimToken, store.now) ==> e.attempt != Some(MutationStarted)
    ensures quiet && Nonblank(claimToken) && Mutating(old(EpisodeAt(store.View(), id)), token, claimToken) ==>
              && settled && Current(store.View(), id)
              && store.episodes[id.bankCode].attempt == Some(ManualRecoveryRequired)
  {
    store.Await({}, quiet);
    var throws := Fails(quiet);
    if throws { return false; }
    ghost var requiring := store.View();
    if Current(requiring, id) && Nonblank(claimToken) {
      UpdatesExactly(RequireManual(token, claimToken), store.episodes[id.bankCode], store.now);
    }
    var answer := store.UpdatePublication(id, RequireManual(token, claimToken));
    LaterTransitive(old(store.View()), requiring, store.View());
    settled := true;
  }

  /** The claim still is this caller's to resolve. */
  predicate Open(e: Option<Episode>, token: string, claimToken: string, now: int) {
    && e.Some? && ClaimedBy(e.value, token, claimToken, now)
    && e.value.attempt in {Some(Reserved), Some(MutationStarted)}
  }

  /** The claim is resolved, if it still is this caller's. */
  method ResolveClaim(store: ExpiryStore, id: Id, token: string, claimToken: string, quiet: bool)
      returns (resolved: bool)
    requires store.Valid()
    modifies store
    ensures store.Valid() && Later(old(store.View()), store.View())
    ensures quiet && Nonblank(claimToken) && Mutating(old(EpisodeAt(store.View(), id)), token, claimToken) ==>
              && resolved && Current(store.View(), id)
              && store.episodes[id.bankCode].attempt == Some(Resolved) && store.episodes[id.bankCode].source.None?
    ensures quiet && !Open(old(EpisodeAt(store.View(), id)), token, claimToken, old(store.now)) ==>
              !resolved && store.View() == old(store.View())
  {
    store.Await({}, quiet);
    ghost var resolving := store.View();
    if Current(resolving, id) && Nonblank(claimToken) {
      UpdatesExactly(Resolve(token, claimToken), store.episodes[id.bankCode], store.now);
    }
    var answer := store.UpdatePublication(id, Resolve(token, claimToken));
    LaterTransitive(old(store.View()), resolving, store.View());
    if answer == Yes {
      UpdateLeavesExactly(Resolve(token, claimToken), resolving.episodes[id.bankCode], resolving.now);
    }
    resolved := answer == Yes;
  }

  /** The end of a recovery whose login succeeded: recollect, resolve, restore. */
  method FinishRecovery(store: ExpiryStore, hasSink: bool, id: Id, token: string, claimToken: string, collected: bool,
      quiet: bool)
    returns (outcome: Recovery)
    requires store.Valid() && id in store.used
    modifies store
    ensures store.Valid() && Later(old(store.View()), store.View())
    ensures outcome == RecollectionFailed <==> !collected
    ensures outcome.Recollected? <==> collected
    ensures outcome == Recollected(true) ==>
              !Current(store.View(), id)
              && Occurrences(SessionEvent(RestoredAudit, id.bankCode, id.expiredEventId), store.events) == 1
    ensures quiet && Nonblank(claimToken) && Mutating(old(EpisodeAt(store.View(), id)), token, claimToken) ==>
              && (!collected ==>
                    Current(store.View(), id)
                    && store.episodes[id.bankCode].attempt == Some(ManualRecoveryRequired))
              && (collected && hasSink ==> outcome == Recollected(true))
    // A claim that is not this caller's any more is neither resolved nor restored.
    ensures quiet && collected && !Open(old(EpisodeAt(store.View(), id)), token, claimToken, old(store.now)) ==>
              outcome == Recollected(false) && store.View() == old(store.View())
  {
    if !collected {
      var settled := RequireManualRecovery(store, id, token, claimToken, quiet);
      return RecollectionFailed;
    }
    var resolved := ResolveClaim(store, id, token, claimToken, quiet);
    if !resolved { return Recollected(false); }
    ghost var restoring := store.View();
    var restoration := RestoreExpiryEpisode(store, hasSink, id, {}, quiet);
    LaterTransitive(old(store.View()), restoring, store.View());
    outcome := Recollected(restoration == RestorationClosed);
  }

  /** The automatic login, on the caller's own ticket. */
  method LoginOnce(store: ExpiryStore, id: Id, quiet: bool)
    requires store.Valid() && Ticket(AutoLogin, id) in store.open
    modifies store
    ensures store.Valid() && Later(old(store.View()), store.View()) && Ticket(AutoLogin, id) in store.performed
    ensures quiet ==> store.episodes == old(store.episodes) && store.now == old(store.now)
  {
    store.Await({Ticket(AutoLogin, id)}, quiet);
    ghost var performing := store.View();
    store.PerformEffect(Ticket(AutoLogin, id));
    LaterTransitive(old(store.View()), performing, store.View());
  }

  /** What follows the login: an operator for one that failed or was refused, the end of the recovery otherwise. */
  method AfterLogin(store: ExpiryStore, hasSink: bool, id: Id, token: string, claimToken: string, login: LoginOutcome,
      collected: bool, quiet: bool)
    returns (outcome: Recovery)
    requires store.Valid() && id in store.used
    modifies store
    ensures store.Valid() && Later(old(store.View()), store.View())
    ensures match login
            case LoginThrew => outcome == ExecutionFailed
            case LoginNotSucceeded => outcome == LoginRefused
            case LoginSucceeded => if collected then outcome.Recollected? else outcome == RecollectionFailed
    ensures quiet && Nonblank(claimToken) && Mutating(old(EpisodeAt(store.View(), id)), token, claimToken) ==>
              && (login != LoginSucceeded || !collected ==>
                    Current(store.View(), id)
                    && store.episodes[id.bankCode].attempt == Some(ManualRecoveryRequired))
              && (login == LoginSucceeded && collected && hasSink ==> outcome == Recollected(true))
  {
    if login == LoginSucceeded {
      outcome := FinishRecovery(store, hasSink, id, token, claimToken, collected, quiet);
    } else {
      var settled := RequireManualRecovery(store, id, token, claimToken, quiet);
      outcome := if login == LoginThrew then ExecutionFailed else LoginRefused;
    }
  }

  /** The recovery of the durable episode: reserve it, log in, and see to the end of it. */
  method RecoverEpisode(store: ExpiryStore, hasSink: bool, episode: Episode, uuid: string, claimUuid: string,
                        login: LoginOutcome, collected: bool, quiet: bool)
    returns (outcome: Recovery, loggedIn: bool)
    requires store.Valid() && episode.id in store.used && Nonblank(uuid) && Nonblank(claimUuid)
    modifies store
    ensures store.Valid() && Later(old(store.View()), store.View())
    ensures outcome != IdentityReused && (outcome == LockBusy <==> !loggedIn)
    ensures loggedIn ==>
              match login
              case LoginThrew => outcome == ExecutionFailed
              case LoginNotSucceeded => outcome == LoginRefused
              case LoginSucceeded => if collected then outcome.Recollected? else outcome == RecollectionFailed
    ensures loggedIn ==>
              && Occurrences(Ticket(AutoLogin, episode.id), store.performed) == 1
              && Ticket(AutoLogin, episode.id) !in old(store.granted)
    ensures quiet && EpisodeAt(old(store.View()), episode.id) == Some(episode) ==>
              && (loggedIn <==> Startable(episode, old(store.now)))
              && (loggedIn && (login != LoginSucceeded || !collected) ==>
                    Current(store.View(), episode.id)
                    && store.episodes[episode.id.bankCode].attempt == Some(ManualRecoveryRequired))
              && (loggedIn && login == LoginSucceeded && collected && hasSink ==> outcome == Recollected(true))
  {
    ghost var start := store.View();
    var reserved, token := ReserveAutoLoginAttempt(store, episode, uuid, claimUuid, quiet);
    if !reserved { return LockBusy, false; }
    ghost var atLogin := store.View();
    LoginOnce(store, episode.id, quiet);
    LaterTransitive(start, atLogin, store.View());
    loggedIn := true;
    ghost var finishing := store.View();
    outcome := AfterLogin(store, hasSink, episode.id, token, claimUuid, login, collected, quiet);
    LaterTransitive(start, finishing, store.View());
    DistinctOccursOnce(Ticket(AutoLogin, episode.id), store.performed);
  }

  /** The durable episode of the candidate's bank: the one that is there, or a new one. */
  function Durable(s: State, candidate: Id): Episode {
    if candidate.bankCode in s.episodes then s.episodes[candidate.bankCode] else New(candidate, s.now)
  }

  /**
   * The recovery path of one ingestion run. Automatic login is called only on the ticket of this run's own mutation
   * start, so across all workers and for ever it happens at most once for the episode's identity. A quiet run logs in
   * exactly on an episode that can be started, and leaves whatever did not end well for an operator. `IdentityReused`
   * is where the model stops: the random identifier was not a new one.
   */
  method RecoverExpiredSession(store: ExpiryStore, hasSink: bool, candidate: Id, uuid: string, claimUuid: string,
                               login: LoginOutcome, collected: bool, quiet: bool)
    returns (outcome: Recovery, id: Id, loggedIn: bool)
    requires store.Valid() && Nonblank(uuid) && Nonblank(claimUuid)
    modifies store
    ensures store.Valid() && Later(old(store.View()), store.View())
    ensures outcome == IdentityReused <==> !Allowed(old(store.View()), Create(candidate))
    ensures outcome == IdentityReused ==> store.View() == old(store.View())
    ensures !loggedIn ==> outcome == LockBusy || outcome == IdentityReused
    ensures loggedIn ==>
              match login
              case LoginThrew => outcome == ExecutionFailed
              case LoginNotSucceeded => outcome == LoginRefused
              case LoginSucceeded => if collected then outcome.Recollected? else outcome == RecollectionFailed
    ensures loggedIn ==>
              && Occurrences(Ticket(AutoLogin, id), store.performed) == 1
              && Ticket(AutoLogin, id) !in old(store.performed)
    ensures quiet && outcome != IdentityReused ==>
              var e := old(Durable(store.View(), candidate));
              && id == e.id && (loggedIn <==> Startable(e, old(store.now)))
              && (loggedIn && (login != LoginSucceeded || !collected) ==>
                    Current(store.View(), id)
                    && store.episodes[id.bankCode].attempt == Some(ManualRecoveryRequired))
              && (loggedIn && login == LoginSucceeded && collected && hasSink ==> outcome == Recollected(true))
  {
    ghost var start := store.View();
    BookkeepingKeeps(start, Elapse(0));
    var available := store.IdentityAvailable(candidate);
    if !available { return IdentityReused, candidate, false; }
    var episode, created := store.GetOrCreate(candidate);
    id := episode.id;
    ghost var reserving := store.View();
    outcome, loggedIn := RecoverEpisode(store, hasSink, episode, uuid, claimUuid, login, collected, quiet);
    LaterTransitive(start, reserving, store.View());
  }

  // ---- terminal queue observations --------------------------------------------------------------------------

  datatype TerminalObservation =
    | TerminalSeen(reason: FailureReason) | NonTerminalSeen(state: string) | ObservationRejected

  function ClassifyExpiryTerminalObservation(value: string): TerminalObservation {
    if value == "failed" then TerminalSeen(JobFailed)
    else if value == "missing" then TerminalSeen(JobMissing)
    else if value in {"waiting", "active", "delayed", "prioritized", "waiting-children", "completed"}
        then NonTerminalSeen(value)
    else ObservationRejected
  }

  /**
   * Only a terminal observation reaches the episode, and a reconciled one leaves it outside any mutation and without a
   * live lease. `observed` is `None` when observing throws.
   */
  method ReconcileExpiryTerminalObservation(store: ExpiryStore, id: Id, token: string, observed: Option<string>,
      at: int, quiet: bool)
    returns (o: TerminalObservation, result: Option<TerminalResult>)
    requires store.Valid()
    modifies store
    ensures store.Valid() && Later(old(store.View()), store.View())
    ensures o == TerminalSeen(JobFailed) <==> observed == Some("failed")
    ensures o == TerminalSeen(JobMissing) <==> observed == Some("missing")
    ensures o.NonTerminalSeen? <==>
              observed in {Some("waiting"), Some("active"), Some("delayed"), Some("prioritized"),
                           Some("waiting-children"), Some("completed")}
    ensures o.NonTerminalSeen? ==> observed == Some(o.state)
    ensures quiet && o.TerminalSeen? ==>
              result == Some(if Current(old(store.View()), id)
                             then ReconcileTerminalResult(old(store.episodes)[id.bankCode], token, o.reason,
                                                          old(store.now))
                             else StaleEnvelope)
    ensures result.Some? <==> o.TerminalSeen?
    ensures !o.TerminalSeen? ==> store.View() == old(store.View())
    ensures result == Some(Reconciled) ==>
              && Current(store.View(), id) && store.episodes[id.bankCode].terminalReason == Some(o.reason)
              && store.episodes[id.bankCode].attempt != Some(MutationStarted)
                  && !LeaseLive(store.episodes[id.bankCode], store.now)
  {
    BookkeepingKeeps(store.View(), Elapse(0));
    o := if observed.None? then ObservationRejected else ClassifyExpiryTerminalObservation(observed.value);
    if !o.TerminalSeen? { return o, None; }
    store.Await({}, quiet);
    ghost var reconciling := store.View();
    var reconciled := store.ReconcileTerminalFailure(id, token, o.reason, at);
    LaterTransitive(old(store.View()), reconciling, store.View());
    result := Some(reconciled);
  }

  // ---- the outbox deliverer ---------------------------------------------------------------------------------

  /** The event is in the sink: acknowledge, unless the lease has been taken over. */
  method Acknowledge(store: ExpiryStore, n: nat, owner: string, quiet: bool) returns (outcome: DeliveryOutcome)
    requires store.Valid() && ResolutionEvent(n) in store.events
    modifies store
    ensures store.Valid() && Later(old(store.View()), store.View())
    ensures outcome == DeliveryThrew || outcome == DeliveryAcknowledged(n)
    ensures outcome == DeliveryAcknowledged(n) ==>
              && KnownOutbox(store.View(), n) && store.outboxes[n - 1].state == OutboxDelivered
              && Occurrences(ResolutionEvent(n), store.events) == 1
    ensures quiet && Nonblank(owner) && KnownOutbox(old(store.View()), n)
            && HoldsOutbox(old(store.outboxes)[n - 1], owner) ==>
              outcome == DeliveryAcknowledged(n)
  {
    store.Await({}, quiet);
    ghost var acknowledging := store.View();
    var marked := store.MarkDeliveredEntry(n, owner);
    LaterTransitive(old(store.View()), acknowledging, store.View());
    DistinctOccursOnce(ResolutionEvent(n), store.events);
    outcome := if marked then DeliveryAcknowledged(n) else DeliveryThrew;
  }

  /** An entry that its deliverer could not deliver is handed back, to be claimed again. */
  method RecordAndAcknowledge(store: ExpiryStore, n: nat, owner: string, sinkThrows: bool, quiet: bool)
      returns (outcome: DeliveryOutcome)
    requires store.Valid()
    modifies store
    ensures store.Valid() && Later(old(store.View()), store.View())
    ensures outcome == DeliveryThrew || outcome == DeliveryAcknowledged(n)
    ensures outcome == DeliveryAcknowledged(n) ==>
              && KnownOutbox(store.View(), n) && store.outboxes[n - 1].state == OutboxDelivered
              && Occurrences(ResolutionEvent(n), store.events) == 1
    ensures sinkThrows ==> outcome == DeliveryThrew
    ensures quiet && Nonblank(owner) && KnownOutbox(old(store.View()), n)
            && HoldsOutbox(old(store.outboxes)[n - 1], owner) ==>
              && (!sinkThrows ==> outcome == DeliveryAcknowledged(n))
              && (sinkThrows ==> KnownOutbox(store.View(), n) && store.outboxes[n - 1].state == OutboxPending)
  {
    store.Await({}, quiet);
    ghost var acting := store.View();
    if sinkThrows {
      var released := store.ReleaseEntry(n, owner);
      LaterTransitive(old(store.View()), acting, store.View());
      return DeliveryThrew;
    }
    store.RecordAudit(ResolutionEvent(n));
    LaterTransitive(old(store.View()), acting, store.View());
    ghost var acknowledging := store.View();
    outcome := Acknowledge(store, n, owner, quiet);
    LaterTransitive(old(store.View()), acknowledging, store.View());
  }

  /** The oldest entry that can be claimed. */
  predicate OldestClaimable(s: State, n: nat) {
    && KnownOutbox(s, n) && OutboxClaimable(s.outboxes[n - 1], s.now)
    && forall k :: 0 <= k < n - 1 ==> !OutboxClaimable(s.outboxes[k], s.now)
  }

  /**
   * Claim, record, acknowledge; the acknowledgement is sent only after the sink took the event. A quiet call delivers
   * the oldest entry that can be claimed, or hands it back if the sink throws.
   */
  method DeliverManualRecoveryResolutionAudit(store: ExpiryStore, owner: string, leaseMs: int, sinkThrows: bool,
      quiet: bool)
    returns (outcome: DeliveryOutcome)
    requires store.Valid()
    modifies store
    ensures store.Valid() && Later(old(store.View()), store.View())
    ensures outcome.DeliveryAcknowledged? ==>
              var n := outcome.resolution;
              && KnownOutbox(store.View(), n) && store.outboxes[n - 1].state == OutboxDelivered
              && Occurrences(ResolutionEvent(n), store.events) == 1
    ensures !Nonblank(owner) || leaseMs <= 0 ==> outcome == DeliveryThrew && store.View() == old(store.View())
    ensures quiet && Nonblank(owner) && leaseMs > 0 ==>
              && (outcome == NothingDelivered <==>
                    forall i :: 0 <= i < |old(store.outboxes)| ==>
                      !OutboxClaimable(old(store.outboxes)[i], old(store.now)))
              && (outcome == DeliveryThrew ==> sinkThrows)
              && (outcome.DeliveryAcknowledged? ==>
                    !sinkThrows && OldestClaimable(old(store.View()), outcome.resolution))
  {
    if !Nonblank(owner) || leaseMs <= 0 {
      BookkeepingKeeps(store.View(), Elapse(0));
      return DeliveryThrew;
    }
    var found := store.FindClaimable();
    store.Await({}, quiet);
    if found.None? { return NothingDelivered; }
    var n := found.value.resolution;
    ghost var claiming := store.View();
    var claimed := store.ClaimOutboxEntry(n, owner, leaseMs);
    LaterTransitive(old(store.View()), claiming, store.View());
    if !claimed { return NothingDelivered; }
    ghost var recording := store.View();
    outcome := RecordAndAcknowledge(store, n, owner, sinkThrows, quiet);
    LaterTransitive(old(store.View()), recording, store.View());
  }
}
