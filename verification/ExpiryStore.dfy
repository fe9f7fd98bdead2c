// The shared stores as one object that many workers update: the in-memory episode repository with its resolutions and
// outbox, and the audit sink's event list. Each method is one atomic update; `Interfere` is everybody else.
module ExpiryStore {
  import opened Wrappers
  import opened ExpiryEpisodes
  import opened AuditSink
  import opened EpisodeSystem
  import opened EpisodeProofs

  /** What a checked update tells its caller; `Threw` is a rejected argument or a rejected tuple. */
  datatype Answer = Yes | No | Threw

  datatype CloseResult = Closed | RetainedForRecovery | MissingOrStale

  /** A mutation that starts is the first of its identity: no login ticket has been granted for it. */
  lemma StartIsFirst(s: State, id: Id, op: Op)
    requires Inv(s)
    ensures Accepted(op) && Current(s, id) && StartsMutation(op)
            && ExpiryEpisodes.UpdatePublication(op, s.episodes[id.bankCode], s.now).Updated? ==>
              Ticket(AutoLogin, id) in OnApply(s, id, op).open && Ticket(AutoLogin, id) !in s.granted
  {
  }

  class ExpiryStore {
    var now: int
    var episodes: map<string, Episode>
    var resolutions: seq<Resolution>
    var outboxes: seq<Outbox>
    var events: seq<EventId>
    // the ledger of identities and effects
    var used: set<Id>
    var granted: set<Ticket>
    var open: set<Ticket>
    var performed: seq<Ticket>

    ghost function View(): State
      reads this
    {
      State(now, episodes, resolutions, outboxes, events, used, granted, open, performed)
    }

    ghost predicate Valid()
      reads this
    {
      Inv(View())
    }

    constructor (start: int)
      ensures Valid() && View() == Initial(start)
    {
      now, episodes, resolutions, outboxes, events := start, map[], [], [], [];
      used, granted, open, performed := {}, {}, {}, [];
    }

    /** One update by somebody else; it may be any step but spending a ticket of `mine`. */
    method OtherWorker(step: Step, mine: set<Ticket>)
      requires Valid() && mine <= open
      modifies this
      ensures Valid() && Later(old(View()), View()) && mine <= open
    {
      if step.Perform? && step.ticket in mine { StepKeepsInv(View(), Step.Elapse(0)); return; }
      ghost var before := View();
      StepKeepsInv(before, step);
      OthersKeepTickets(before, step, mine);
      var s := Next(State(now, episodes, resolutions, outboxes, events, used, granted, open, performed), step);
      now, episodes, resolutions, outboxes, events := s.now, s.episodes, s.resolutions, s.outboxes, s.events;
      used, granted, open, performed := s.used, s.granted, s.open, s.performed;
      assert View() == Next(before, step);
    }

    /** Any number of updates by any other workers. */
    method Interfere(mine: set<Ticket>)
      requires Valid() && mine <= open
      modifies this
      ensures Valid() && Later(old(View()), View()) && mine <= open
    {
      StepKeepsInv(View(), Step.Elapse(0));
      var updates: nat :| true;
      for i := 0 to updates
        invariant Valid() && Later(old(View()), View()) && mine <= open
      {
        ghost var before := View();
        var step: Step := *;
        OtherWorker(step, mine);
        LaterTransitive(old(View()), before, View());
      }
    }

    /** Between two awaits anybody else may act, unless the call is quiet. */
    method Await(mine: set<Ticket>, quiet: bool)
      requires Valid() && mine <= open
      modifies this
      ensures Valid() && Later(old(View()), View()) && mine <= open
      ensures quiet ==> View() == old(View())
    {
      StepKeepsInv(View(), Step.Elapse(0));
      if !quiet { Interfere(mine); }
    }

    /** A ticket is handed to the caller of the update that earned it. */
    method Earn(t: Ticket)
      modifies this`granted, this`open
      ensures View() == Grant(old(View()), t)
    {
      granted, open := granted + {t}, open + {t};
    }

    /** Whether creating this identity keeps identities unique: the bank is taken, or nothing of it was ever used. */
    method IdentityAvailable(id: Id) returns (available: bool)
      ensures available <==> Allowed(View(), Create(id))
    {
      available := id.bankCode in episodes
                   || forall u :: u in used ==> u.expiredEventId != id.expiredEventId && u.runId != id.runId;
    }

    method GetOrCreate(id: Id) returns (episode: Episode, created: bool)
      requires Valid()
      modifies this
      ensures View() == OnCreate(old(View()), id)
      ensures Allowed(old(View()), Create(id)) ==> Valid() && Later(old(View()), View())
      ensures id.bankCode in episodes && episode == episodes[id.bankCode]
      ensures created <==> id.bankCode !in old(episodes)
      ensures created ==> episode.id == id && Ticket(ExpiredAlert, id) in open
    {
      ghost var before := View();
      if id.bankCode in episodes {
        episode, created := episodes[id.bankCode], false;
      } else {
        episode, created := New(id, now), true;
        episodes := episodes[id.bankCode := episode];
        used := used + {id};
        Earn(Ticket(ExpiredAlert, id));
      }
      if Allowed(before, Create(id)) { StepKeepsInv(before, Create(id)); }
    }

    method FindByBankCode(bankCode: string) returns (episode: Option<Episode>)
      requires Valid()
      ensures episode == if bankCode in episodes then Some(episodes[bankCode]) else None
      ensures episode.Some? ==>
                episode.value.id.bankCode == bankCode && episode.value.id in used && WellFormed(episode.value)
    {
      if bankCode in episodes { return Some(episodes[bankCode]); }
      return None;
    }

    /** The one checked update path: identity, guard, new tuple, runtime check, write. */
    method CheckedUpdate(id: Id, op: Op) returns (answer: Answer)
      modifies this
      ensures View() == OnApply(old(View()), id, op)
      ensures answer == Yes <==>
                Accepted(op) && Current(old(View()), id)
                    && ExpiryEpisodes.UpdatePublication(op, old(episodes)[id.bankCode], now).Updated?
      ensures answer == Threw <==>
                !Accepted(op)
                || (Current(old(View()), id)
                    && ExpiryEpisodes.UpdatePublication(op, old(episodes)[id.bankCode], now).TupleRejected?)
    {
      if !Accepted(op) { return Threw; }
      if id.bankCode !in episodes { return No; }
      var current := episodes[id.bankCode];
      if current.id != id || !CanUpdate(op, current, now) { return No; }
      var updated := Update(op, current, now);
      if !LeaseTupleParses(updated) { return Threw; }
      episodes := episodes[id.bankCode := updated.(updatedAt := now)];
      if StartsMutation(op) { Earn(Ticket(AutoLogin, id)); }
      return Yes;
    }

    method UpdatePublication(id: Id, op: Op) returns (answer: Answer)
      requires Valid()
      modifies this
      ensures Valid() && View() == OnApply(old(View()), id, op) && Later(old(View()), View())
      ensures answer == Yes <==>
                Accepted(op) && Current(old(View()), id)
                    && ExpiryEpisodes.UpdatePublication(op, old(episodes)[id.bankCode], now).Updated?
      ensures answer == Threw <==>
                !Accepted(op)
                || (Current(old(View()), id) && op.CancelPublication? && CanUpdate(op, old(episodes)[id.bankCode], now)
                    && old(episodes)[id.bankCode].source == Some(ScrapeTime))
      ensures answer == No ==> !Current(old(View()), id) || !CanUpdate(op, old(episodes)[id.bankCode], now)
      ensures answer == Yes ==>
                && Current(View(), id) && now == old(now)
                && episodes == old(episodes)[id.bankCode :=
                     ExpiryEpisodes.UpdatePublication(op, old(episodes)[id.bankCode], now).episode]
                && AttemptAfter(op, old(episodes)[id.bankCode].attempt, episodes[id.bankCode].attempt)
      ensures answer != Yes ==> View() == old(View())
      ensures answer == Yes && StartsMutation(op) ==>
                Ticket(AutoLogin, id) in open && Ticket(AutoLogin, id) !in old(granted)
    {
      ghost var before := View();
      ApplyKeeps(before, id, op);
      StartIsFirst(before, id, op);
      if Current(before, id) && Accepted(op) && CanUpdate(op, episodes[id.bankCode], now) {
        RuntimeCheckFiresExactly(op, episodes[id.bankCode], now);
        if ExpiryEpisodes.UpdatePublication(op, episodes[id.bankCode], now).Updated? {
          UpdateLeavesExactly(op, episodes[id.bankCode], now);
        }
      }
      answer := CheckedUpdate(id, op);
    }

    method WriteTerminalFailure(id: Id, envelopeToken: string, reason: FailureReason, reconciledAt: int)
        returns (result: TerminalResult)
      modifies this
      ensures View() == OnReconcileTerminal(old(View()), id, envelopeToken, reason, reconciledAt)
      ensures result == if !Current(old(View()), id) then StaleEnvelope
                        else ReconcileTerminalResult(old(episodes)[id.bankCode], envelopeToken, reason, old(now))
    {
      if id.bankCode !in episodes || episodes[id.bankCode].id != id { return StaleEnvelope; }
      var current := episodes[id.bankCode];
      if !Reaches(current, ViaEnvelope(envelopeToken)) || current.restoredAudit || current.attempt == Some(Resolved) {
        return StaleEnvelope;
      }
      if current.terminalReason == Some(JobFailed)
          || current.terminalReason == Some(reason) { return AlreadyReconciled; }
      if LeaseLive(current, now) { return ActiveLeaseDefers; }
      var updated := current.(terminalReason := Some(reason), updatedAt := now);
      if current.terminalReconciledAt.None? { updated := updated.(terminalReconciledAt := Some(reconciledAt)); }
      if NeedsManualRecovery(current) { updated := updated.(attempt := Some(ManualRecoveryRequired), lease := None); }
      episodes := episodes[id.bankCode := updated];
      return Reconciled;
    }

    method ReconcileTerminalFailure(id: Id, envelopeToken: string, reason: FailureReason, reconciledAt: int)
      returns (result: TerminalResult)
      requires Valid()
      modifies this
      ensures Valid() && View() == OnReconcileTerminal(old(View()), id, envelopeToken, reason, reconciledAt)
      ensures Later(old(View()), View())
      ensures result == if !Current(old(View()), id) then StaleEnvelope
                        else ReconcileTerminalResult(old(episodes)[id.bankCode], envelopeToken, reason, now)
      ensures result == Reconciled ==>
                Current(View(), id) && episodes[id.bankCode].terminalReason == Some(reason)
                && episodes[id.bankCode].attempt != Some(MutationStarted) && !LeaseLive(episodes[id.bankCode], now)
    {
      ReconcileTerminalKeeps(View(), id, envelopeToken, reason, reconciledAt);
      result := WriteTerminalFailure(id, envelopeToken, reason, reconciledAt);
    }

    /** The resolution and its outbox entry, written together; a failing outbox step throws before any write. */
    method WriteResolution(id: Id, envelopeToken: string, claimToken: string, decision: Decision, outboxFails: bool)
      returns (answer: Answer, number: nat)
      modifies this
      ensures View() == OnResolveManual(old(View()), id, envelopeToken, claimToken, decision, outboxFails)
      ensures answer == Yes <==> ManuallyResolvable(old(View()), id, envelopeToken, claimToken) && !outboxFails
      ensures answer == Threw <==>
                !Nonblank(claimToken)
                || (ManuallyResolvable(old(View()), id, envelopeToken, claimToken) && outboxFails)
      ensures answer == Yes ==>
                && number == |resolutions|
                && resolutions == old(resolutions) + [Resolution(number, id, decision, None)]
      ensures answer != Yes ==> View() == old(View())
    {
      number := 0;
      if !Nonblank(claimToken) { return Threw, 0; }
      if id.bankCode !in episodes || episodes[id.bankCode].id != id { return No, 0; }
      var current := episodes[id.bankCode];
      if !CanResolveManually(current, envelopeToken, claimToken) { return No, 0; }
      if outboxFails { return Threw, 0; }
      number := |resolutions| + 1;
      episodes := episodes[id.bankCode := current.(attempt := Some(Resolved), updatedAt := now)];
      resolutions := resolutions + [Resolution(number, id, decision, None)];
      outboxes := outboxes + [Outbox(number, OutboxPending, None, None, None)];
      answer := Yes;
    }

    method ResolveConsumerManualRecovery(id: Id, envelopeToken: string, claimToken: string, decision: Decision,
        outboxFails: bool)
      returns (answer: Answer, number: nat)
      requires Valid()
      modifies this
      ensures Valid() && Later(old(View()), View())
      ensures View() == OnResolveManual(old(View()), id, envelopeToken, claimToken, decision, outboxFails)
      ensures answer == Yes <==> ManuallyResolvable(old(View()), id, envelopeToken, claimToken) && !outboxFails
      ensures answer == Threw <==>
                !Nonblank(claimToken)
                || (ManuallyResolvable(old(View()), id, envelopeToken, claimToken) && outboxFails)
      ensures answer == Yes ==>
                number == |resolutions| == |outboxes|
                    && resolutions[number - 1] == Resolution(number, id, decision, None)
      ensures answer != Yes ==> View() == old(View())
    {
      ResolveManualKeeps(View(), id, envelopeToken, claimToken, decision, outboxFails);
      answer, number := WriteResolution(id, envelopeToken, claimToken, decision, outboxFails);
    }

    method AuthorizeManualRecoveryReplay(n: nat, candidate: Replay) returns (result: ReplayResult)
      requires Valid()
      modifies this
      ensures View() == OnAuthorizeReplay(old(View()), n, candidate)
      ensures Allowed(old(View()), AuthorizeReplay(n, candidate)) ==> Valid() && Later(old(View()), View())
      ensures result == ReplayOutcome(old(View()), n, candidate)
      ensures result.ReplayAuthorized? ==>
                1 <= n <= |resolutions| && resolutions[n - 1].replay == Some(candidate)
                && Current(View(), ReplayId(resolutions[n - 1], candidate))
    {
      ghost var before := View();
      if Allowed(before, AuthorizeReplay(n, candidate)) { StepKeepsInv(before, AuthorizeReplay(n, candidate)); }
      if n == 0 || n > |resolutions| || n > |outboxes| { return Ineligible; }
      var resolution, outbox := resolutions[n - 1], outboxes[n - 1];
      if resolution.decision != SafeToRetry || outbox.state != OutboxDelivered
          || outbox.deliveredAt.None? { return Ineligible; }
      if resolution.replay.Some? { return AlreadyAuthorized(resolution.replay.value); }
      if !Nonblank(candidate.expiredEventId) || !Nonblank(candidate.runId)
          || candidate.expiredEventId == candidate.runId {
        return ReplayIdsRejected;
      }
      var bank := resolution.episode.bankCode;
      if bank in episodes {
        var current := episodes[bank];
        if current.id != resolution.episode || current.publication != Published || current.attempt != Some(Resolved) {
          return Ineligible;
        }
      }
      var conflict := HasReplayConflict(candidate);
      if conflict { return ReplayIdsRejected; }
      var id := Id(bank, candidate.expiredEventId, candidate.runId);
      resolutions := resolutions[n - 1 := resolution.(replay := Some(candidate))];
      episodes := episodes[bank := New(id, now)];
      used := used + {id};
      return ReplayAuthorized(candidate);
    }

    /** The scan over every resolution for an identifier it was opened with or granted before. */
    method HasReplayConflict(candidate: Replay) returns (conflict: bool)
      ensures conflict <==> ReplayConflicts(View(), candidate)
    {
      conflict := false;
      var i := 0;
      while i < |resolutions|
        invariant 0 <= i <= |resolutions|
        invariant conflict <==> ReplayConflicts(View().(resolutions := resolutions[..i]), candidate)
      {
        var x := resolutions[i];
        assert resolutions[..i + 1] == resolutions[..i] + [x];
        if x.episode.expiredEventId == candidate.expiredEventId || x.episode.runId == candidate.runId
           || (x.replay.Some? && (x.replay.value.expiredEventId == candidate.expiredEventId
               || x.replay.value.runId == candidate.runId))
        {
          conflict := true;
          assert resolutions[..i + 1][i] == x;
        }
        i := i + 1;
      }
      assert resolutions[..i] == resolutions;
    }

    method IsAuditDelivered(bankCode: string, runId: string, kind: AuditKind) returns (delivered: bool)
      requires Valid()
      ensures delivered <==>
                && bankCode in episodes && episodes[bankCode].id.runId == runId
                && AuditFlag(episodes[bankCode], kind)
      ensures delivered ==> SessionEvent(kind, bankCode, episodes[bankCode].id.expiredEventId) in events
    {
      delivered := bankCode in episodes && episodes[bankCode].id.runId == runId && AuditFlag(episodes[bankCode], kind);
    }

    method SetAuditFlag(bankCode: string, runId: string, kind: AuditKind) returns (marked: bool)
      modifies this
      ensures View() == OnMarkDelivered(old(View()), bankCode, runId, kind)
      ensures marked <==> Markable(old(View()), bankCode, runId, kind)
    {
      if bankCode !in episodes { return false; }
      var current := episodes[bankCode];
      if current.id.runId != runId || AuditFlag(current, kind) { return false; }
      var updated := if kind == ExpiredAudit then current.(expiredAudit := true) else current.(restoredAudit := true);
      if kind == RestoredAudit && current.attempt == Some(Reserved) {
        updated := updated.(claimToken := None, attempt := None, source := None, lease := None);
      }
      episodes := episodes[bankCode := updated];
      return true;
    }

    method MarkAuditDelivered(bankCode: string, runId: string, kind: AuditKind) returns (marked: bool)
      requires Valid()
      modifies this
      ensures View() == OnMarkDelivered(old(View()), bankCode, runId, kind)
      ensures marked <==> Markable(old(View()), bankCode, runId, kind)
      ensures Allowed(old(View()), MarkDelivered(bankCode, runId, kind)) ==> Valid() && Later(old(View()), View())
    {
      if Allowed(View(), MarkDelivered(bankCode, runId, kind)) { MarkDeliveredKeeps(View(), bankCode, runId, kind); }
      marked := SetAuditFlag(bankCode, runId, kind);
    }

    method DeleteClosable(id: Id) returns (result: CloseResult)
      modifies this
      ensures View() == OnClose(old(View()), id)
      ensures result == Closed <==> Closable(old(View()), id)
      ensures result == MissingOrStale <==> !Current(old(View()), id)
    {
      if id.bankCode !in episodes || episodes[id.bankCode].id != id { return MissingOrStale; }
      var attempt := episodes[id.bankCode].attempt;
      if attempt.Some? && attempt.value != Resolved { return RetainedForRecovery; }
      episodes := episodes - {id.bankCode};
      Earn(Ticket(ActiveAlert, id));
      return Closed;
    }

    method Close(id: Id) returns (result: CloseResult)
      requires Valid()
      modifies this
      ensures Valid() && View() == OnClose(old(View()), id) && Later(old(View()), View())
      ensures result == Closed <==> Closable(old(View()), id)
      ensures result == MissingOrStale <==> !Current(old(View()), id)
      ensures result == Closed ==> id.bankCode !in episodes && Ticket(ActiveAlert, id) in open
    {
      CloseKeeps(View(), id);
      result := DeleteClosable(id);
    }

    method RecordAudit(event: EventId)
      requires Valid()
      modifies this
      ensures Valid() && View() == Next(old(View()), Record(event)) && Later(old(View()), View())
      ensures event in events
    {
      StepKeepsInv(View(), Record(event));
      if event !in events { events := events + [event]; }
    }

    /** The oldest entry nobody is delivering. */
    method FindClaimable() returns (found: Option<Outbox>)
      requires Valid()
      ensures found.Some? ==>
                KnownOutbox(View(), found.value.resolution) && outboxes[found.value.resolution - 1] == found.value
                && OutboxClaimable(found.value, now)
                && forall k :: 0 <= k < found.value.resolution - 1 ==> !OutboxClaimable(outboxes[k], now)
      ensures found.None? ==> forall i :: 0 <= i < |outboxes| ==> !OutboxClaimable(outboxes[i], now)
    {
      var i := 0;
      while i < |outboxes|
        invariant 0 <= i <= |outboxes|
        invariant forall k :: 0 <= k < i ==> !OutboxClaimable(outboxes[k], now)
      {
        if OutboxClaimable(outboxes[i], now) {
          assert OutboxSound(View(), i);
          return Some(outboxes[i]);
        }
        i := i + 1;
      }
      return None;
    }

    method ClaimOutboxEntry(n: nat, owner: string, leaseMs: int) returns (claimed: bool)
      requires Valid()
      modifies this
      ensures Valid() && View() == OnClaimOutbox(old(View()), n, owner, leaseMs) && Later(old(View()), View())
      ensures claimed <==> KnownOutbox(old(View()), n) && Nonblank(owner) && leaseMs > 0
                           && OutboxClaimable(old(outboxes)[n - 1], now)
    {
      StepKeepsInv(View(), ClaimOutbox(n, owner, leaseMs));
      if n == 0 || n > |outboxes| || !Nonblank(owner) || leaseMs <= 0
          || !OutboxClaimable(outboxes[n - 1], now) { return false; }
      outboxes := outboxes[n - 1 := outboxes[n - 1].(state := OutboxDelivering, leaseOwner := Some(owner),
          leaseExpiresAt := Some(now + leaseMs))];
      return true;
    }

    method MarkDeliveredEntry(n: nat, owner: string) returns (marked: bool)
      requires Valid()
      modifies this
      ensures View() == OnOutboxDelivered(old(View()), n, owner)
      ensures Allowed(old(View()), MarkOutboxDelivered(n, owner)) ==> Valid() && Later(old(View()), View())
      ensures marked <==> KnownOutbox(old(View()), n) && Nonblank(owner) && HoldsOutbox(old(outboxes)[n - 1], owner)
      ensures marked ==> KnownOutbox(View(), n) && outboxes[n - 1].state == OutboxDelivered
    {
      ghost var before := View();
      if Allowed(before, MarkOutboxDelivered(n, owner)) { StepKeepsInv(before, MarkOutboxDelivered(n, owner)); }
      if n == 0 || n > |outboxes| || !Nonblank(owner) || !HoldsOutbox(outboxes[n - 1], owner) { return false; }
      outboxes := outboxes[n - 1 := outboxes[n - 1].(state := OutboxDelivered, leaseOwner := None,
          leaseExpiresAt := None, deliveredAt := Some(now))];
      return true;
    }

    method ReleaseEntry(n: nat, owner: string) returns (released: bool)
      requires Valid()
      modifies this
      ensures Valid() && View() == OnReleaseOutbox(old(View()), n, owner) && Later(old(View()), View())
      ensures released <==> KnownOutbox(old(View()), n) && Nonblank(owner) && HoldsOutbox(old(outboxes)[n - 1], owner)
    {
      StepKeepsInv(View(), ReleaseOutbox(n, owner));
      if n == 0 || n > |outboxes| || !Nonblank(owner) || !HoldsOutbox(outboxes[n - 1], owner) { return false; }
      outboxes := outboxes[n - 1 := outboxes[n - 1].(state := OutboxPending, leaseOwner := None,
          leaseExpiresAt := None)];
      return true;
    }

    method Elapse(ms: nat)
      requires Valid()
      modifies this`now
      ensures Valid() && View() == Next(old(View()), Step.Elapse(ms)) && Later(old(View()), View())
    {
      StepKeepsInv(View(), Step.Elapse(ms));
      now := now + ms;
    }

    /** The episode UPDATE of an observed restoration, sent after the locked row was found resolvable. */
    method ResolveObservedEpisode(bankCode: string, runId: string) returns (updated: nat)
      requires Valid()
      requires bankCode in episodes && episodes[bankCode].attempt == Some(MutationStarted) ==>
          ObservedResolvable(episodes[bankCode], now)
      modifies this
      ensures Valid() && View() == OnObservedRestoration(old(View()), bankCode, runId) && Later(old(View()), View())
      ensures updated <= 1
      ensures updated == 1 <==>
                bankCode in old(episodes) && old(episodes)[bankCode].id.runId == runId
                    && ObservedResolvable(old(episodes)[bankCode], now)
    {
      StepKeepsInv(View(), ObservedRestoration(bankCode, runId));
      if bankCode !in episodes { return 0; }
      var e := episodes[bankCode];
      if e.id.runId != runId || (e.attempt != Some(ManualRecoveryRequired)
          && e.attempt != Some(MutationStarted)) { return 0; }
      episodes := episodes[bankCode := e.(attempt := Some(Resolved), lease := None, updatedAt := now)];
      return 1;
    }

    /** Logs in or alerts, on the caller's own ticket. */
    method PerformEffect(t: Ticket)
      requires Valid() && t in open
      modifies this
      ensures Valid() && View() == OnPerform(old(View()), t) && Later(old(View()), View())
    {
      StepKeepsInv(View(), Perform(t));
      open, performed := open - {t}, performed + [t];
    }
  }
}
