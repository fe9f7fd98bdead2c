// What the episode invariants mean over whole histories.
module EpisodeTheorems {
  import opened Wrappers
  import opened ExpiryEpisodes
  import opened AuditSink
  import opened EpisodeSystem
  import opened EpisodeProofs

  // ---- reachable episodes -----------------------------------------------------------------------------------

  /**
   * Every reachable episode satisfies the three tuple parsers and the three database constraints, although several
   * updates bypass the check.
   */
  lemma EveryEpisodeParses(start: int, steps: seq<Step>, bank: string)
    requires bank in Run(start, steps).episodes
    ensures var e := Run(start, steps).episodes[bank];
            Parses(e) && LeaseConstraint(e) && PublicationConstraint(e) && ConsumerConstraint(e)
  {
    RunKeepsInv(start, steps);
    ParsersMatchConstraints(Run(start, steps).episodes[bank]);
  }

  // ---- at most one mutation, login and alert ----------------------------------------------------------------

  function MutationStarts(start: int, steps: seq<Step>, id: Id): nat {
    if steps == [] then 0
    else
      var before, last := steps[..|steps| - 1], steps[|steps| - 1];
      MutationStarts(start, before, id) + if StartsMutationOf(Run(start, before), last, id) then 1 else 0
  }

  /** The step is a claim of `id` entering "mutation started". */
  predicate StartsMutationOf(s: State, step: Step, id: Id) {
    && step.Apply? && step.id == id && StartsMutation(step.op) && Accepted(step.op)
    && Current(s, id) && UpdatePublication(step.op, s.episodes[id.bankCode], s.now).Updated?
  }

  /** Only starting a mutation grants a login ticket. */
  lemma LoginTicketsOnlyFromStarts(s: State, step: Step, id: Id)
    requires Inv(s)
    ensures Ticket(AutoLogin, id) in Next(s, step).granted <==>
            Ticket(AutoLogin, id) in s.granted || StartsMutationOf(s, step, id)
  {
  }

  /** Per episode identity, over any history, at most one claim ever enters "mutation started". */
  lemma {:induction false} MutationStartsAtMostOnce(start: int, steps: seq<Step>, id: Id)
    ensures MutationStarts(start, steps, id) == if Ticket(AutoLogin, id) in Run(start, steps).granted then 1 else 0
    ensures MutationStarts(start, steps, id) <= 1
  {
    if steps != [] {
      var before, last := steps[..|steps| - 1], steps[|steps| - 1];
      MutationStartsAtMostOnce(start, before, id);
      RunKeepsInv(start, before);
      var s := Run(start, before);
      LoginTicketsOnlyFromStarts(s, last, id);
      if StartsMutationOf(s, last, id) {
        CheckedUpdateEvolves(last.op, s.episodes[id.bankCode], s.now);
        assert Ticket(AutoLogin, id) in s.granted ==> TicketSound(s, Ticket(AutoLogin, id));
      }
    }
  }

  /** Each effect - an automatic login, an "expired" alert, an "active" alert - happens at most once per identity. */
  lemma EffectsAtMostOnce(start: int, steps: seq<Step>, effect: Effect, id: Id)
    ensures Occurrences(Ticket(effect, id), Run(start, steps).performed) <= 1
  {
    RunKeepsInv(start, steps);
    DistinctOccursOnce(Ticket(effect, id), Run(start, steps).performed);
  }

  /** A login that happened was paid for by exactly one mutation start of the same identity. */
  lemma LoginsFollowMutationStarts(start: int, steps: seq<Step>, id: Id)
    requires Ticket(AutoLogin, id) in Run(start, steps).performed
    ensures MutationStarts(start, steps, id) == 1
    ensures Occurrences(Ticket(AutoLogin, id), Run(start, steps).performed) == 1
  {
    RunKeepsInv(start, steps);
    MutationStartsAtMostOnce(start, steps, id);
    DistinctOccursOnce(Ticket(AutoLogin, id), Run(start, steps).performed);
  }

  lemma ApplyStaysCurrent(s: State, other: Id, op: Op, id: Id)
    requires Current(s, id)
    ensures Current(OnApply(s, other, op), id)
    ensures op.CancelPublication? && other == id
              && !UpdatePublication(op, s.episodes[id.bankCode], s.now).TupleRejected? ==>
              OnApply(s, other, op).episodes[id.bankCode].attempt == s.episodes[id.bankCode].attempt
  {
  }

  /** Updates in place keep the current episode current. */
  lemma InPlaceStaysCurrent(s: State, step: Step, id: Id)
    requires Inv(s) && Current(s, id) && !step.Close? && !step.AuthorizeReplay?
    ensures Current(Do(s, step), id)
  {
    match step
    case Apply(other, op) => ApplyStaysCurrent(s, other, op, id);
    case _ =>
  }

  lemma ReplayNeedsResolved(s: State, n: nat, r: Replay, id: Id)
    requires Inv(s) && Current(s, id) && !Current(OnAuthorizeReplay(s, n, r), id)
    ensures s.episodes[id.bankCode].attempt == Some(Resolved)
  {
  }

  /** Only a close or a replay removes the current episode, and both look at the attempt first. */
  lemma OnlyCloseOrReplayRemoves(s: State, step: Step, id: Id)
    requires Inv(s) && Current(s, id) && !Current(Do(s, step), id)
    ensures step.Close? || step.AuthorizeReplay?
    ensures var a := s.episodes[id.bankCode].attempt; a == Some(Resolved) || (step.Close? && a.None?)
  {
    if !step.Close? {
      if step.AuthorizeReplay? { ReplayNeedsResolved(s, step.resolution, step.replay, id); }
      else { InPlaceStaysCurrent(s, step, id); }
    }
  }

  // ---- how an episode is resolved ---------------------------------------------------------------------------

  function AttemptOf(s: State, id: Id): Option<AttemptState> {
    if Current(s, id) then s.episodes[id.bankCode].attempt else None
  }

  /** The holder of the claim resolves it, on its own lease if it has one. */
  predicate ResolvedByHolder(s: State, step: Step, id: Id) {
    && step.Apply? && step.id == id && Current(s, id) && Accepted(step.op)
    && var e := s.episodes[id.bankCode];
       match step.op
       case Resolve(token, claim) =>
         ClaimedBy(e, token, claim, s.now) && e.attempt in {Some(Reserved), Some(MutationStarted)}
       case ResolveLease(via, claim) => LeasedBy(e, via, claim, s.now)
       case _ => false
  }

  /** An operator resolves what was left for manual recovery, naming its envelope and its claim. */
  predicate ResolvedByOperator(s: State, step: Step, id: Id) {
    && step.ResolveManualRecovery? && step.id == id && !step.outboxFails && Current(s, id)
    && Nonblank(step.claimToken) && AttemptOf(s, id) == Some(ManualRecoveryRequired)
    && Envelope(s.episodes[id.bankCode], step.envelopeToken)
    && s.episodes[id.bankCode].claimToken == Some(step.claimToken)
  }

  /** The portal was seen to be logged in: manual recovery, or a mutation whose lease has run out, is over. */
  predicate ResolvedByObservation(s: State, step: Step, id: Id) {
    && step.ObservedRestoration? && step.bankCode == id.bankCode && Current(s, id) && step.runId == id.runId
    && var e := s.episodes[id.bankCode];
       || e.attempt == Some(ManualRecoveryRequired)
       || (e.attempt == Some(MutationStarted) && e.lease.Some? && !LeaseLive(e, s.now))
  }

  lemma ApplyResolvesExactly(s: State, op: Op, id: Id)
    requires Inv(s) && Current(s, id) && AttemptOf(s, id) != Some(Resolved)
    ensures AttemptOf(OnApply(s, id, op), id) == Some(Resolved) <==> ResolvedByHolder(s, Apply(id, op), id)
  {
    var e := s.episodes[id.bankCode];
    if Accepted(op) {
      UpdatesExactly(op, e, s.now);
      if UpdatePublication(op, e, s.now).Updated? { UpdateLeavesExactly(op, e, s.now); }
    }
  }

  lemma OthersResolveNothing(s: State, step: Step, id: Id)
    requires Inv(s) && Current(s, id) && AttemptOf(s, id) != Some(Resolved)
    requires !(step.Apply? && step.id == id) && !step.ResolveManualRecovery? && !step.ObservedRestoration?
    ensures AttemptOf(Do(s, step), id) != Some(Resolved)
  {
  }

  lemma ObservationResolvesExactly(s: State, step: Step, id: Id)
    requires Inv(s) && Current(s, id) && AttemptOf(s, id) != Some(Resolved) && step.ObservedRestoration?
    ensures AttemptOf(Do(s, step), id) == Some(Resolved) <==> ResolvedByObservation(s, step, id)
  {
    ResolutionLeavesExactly(s.episodes[id.bankCode], s.now);
    if step.bankCode in s.episodes { assert s.episodes[step.bankCode].id in s.used && id in s.used; }
  }

  /**
   * The only ways into "resolved", whoever acts: the claim's holder, an operator after manual recovery, or an observed
   * restoration. No reconciliation, failed job or audit resolves anything.
   */
  lemma ResolvedExactly(s: State, step: Step, id: Id)
    requires Inv(s) && Current(s, id) && AttemptOf(s, id) != Some(Resolved)
    ensures AttemptOf(Next(s, step), id) == Some(Resolved) <==>
              ResolvedByHolder(s, step, id) || ResolvedByOperator(s, step, id) || ResolvedByObservation(s, step, id)
  {
    if Allowed(s, step) {
      if step.Apply? && step.id == id {
        ApplyResolvesExactly(s, step.op, id);
      } else if step.ObservedRestoration? {
        ObservationResolvesExactly(s, step, id);
      } else if !step.ResolveManualRecovery? {
        OthersResolveNothing(s, step, id);
      }
    }
  }

  /** A lapsed claim, and a mutation its holder gives up, are for an operator: never resolved, never closable. */
  lemma GivenUpNeedsRecovery(s: State, op: Op, id: Id)
    requires Inv(s) && Current(s, id) && Accepted(op) && !Closable(s, id)
    requires op.ReconcileLease? || op.RequireManual? || op.RequireManualLease?
    ensures var t := Next(s, Apply(id, op));
            UpdatePublication(op, s.episodes[id.bankCode], s.now).Updated? ==>
              AttemptOf(t, id) == Some(ManualRecoveryRequired) && !Closable(t, id)
  {
    var e := s.episodes[id.bankCode];
    if UpdatePublication(op, e, s.now).Updated? { UpdateLeavesExactly(op, e, s.now); }
  }

  /** A later state has the same episode still there, resolved, or not at all. */
  lemma RecoveryMovesOn(s: State, t: State, id: Id)
    requires Inv(s) && Later(s, t) && AttemptOf(s, id) == Some(ManualRecoveryRequired) && Current(t, id)
    ensures AttemptOf(t, id) == Some(ManualRecoveryRequired) || AttemptOf(t, id) == Some(Resolved)
  {
    assert id in s.used && EvolvesTo(s.episodes[id.bankCode], t.episodes[id.bankCode]);
    var a := AttemptOf(t, id).value;
    assert a.Reserved? || a.MutationStarted? || a.ManualRecoveryRequired? || a.Resolved?;
  }

  lemma HolderIsGone(s: State, step: Step, id: Id)
    requires Inv(s) && AttemptOf(s, id) == Some(ManualRecoveryRequired)
    ensures !ResolvedByHolder(s, step, id)
  {
    assert WellFormed(s.episodes[id.bankCode]);
  }

  lemma ManualRecoveryStep(s: State, step: Step, id: Id)
    requires Inv(s) && AttemptOf(s, id) == Some(ManualRecoveryRequired)
    ensures AttemptOf(Next(s, step), id) == Some(ManualRecoveryRequired)
            || ResolvedByOperator(s, step, id) || ResolvedByObservation(s, step, id)
  {
    StepKeepsInv(s, step);
    if Current(Next(s, step), id) {
      RecoveryMovesOn(s, Next(s, step), id);
      ResolvedExactly(s, step, id);
      HolderIsGone(s, step, id);
    } else {
      OnlyCloseOrReplayRemoves(s, step, id);
    }
  }

  /**
   * Over any history, what is left for manual recovery stays so, and cannot be closed, until an operator resolves it or
   * an observed restoration does.
   */
  lemma {:induction false} ManualRecoveryStaysUntilResolved(start: int, steps: seq<Step>, k: nat, id: Id)
    requires k <= |steps| && AttemptOf(Run(start, steps[..k]), id) == Some(ManualRecoveryRequired)
    ensures || (AttemptOf(Run(start, steps), id) == Some(ManualRecoveryRequired) && !Closable(Run(start, steps), id))
            || exists j :: k <= j < |steps|
                 && (ResolvedByOperator(Run(start, steps[..j]), steps[j], id)
                     || ResolvedByObservation(Run(start, steps[..j]), steps[j], id))
    decreases |steps|
  {
    if k == |steps| {
      assert steps[..k] == steps;
    } else {
      var before := steps[..|steps| - 1];
      assert before[..k] == steps[..k];
      ManualRecoveryStaysUntilResolved(start, before, k, id);
      if j: nat :| k <= j < |before| && (ResolvedByOperator(Run(start, before[..j]), before[j], id)
                                    || ResolvedByObservation(Run(start, before[..j]), before[j], id)) {
        assert before[..j] == steps[..j];
      } else {
        RunKeepsInv(start, before);
        ManualRecoveryStep(Run(start, before), steps[|steps| - 1], id);
        assert steps[..|steps| - 1] == before;
      }
    }
  }

  /** An episode that ever entered "mutation started" disappears, or is replaced, only from "resolved". */
  lemma MutatedEpisodesLeaveOnlyResolved(start: int, steps: seq<Step>, step: Step, id: Id)
    requires MutationStarts(start, steps, id) > 0
    requires Current(Run(start, steps), id) && !Current(Next(Run(start, steps), step), id)
    ensures Run(start, steps).episodes[id.bankCode].attempt == Some(Resolved)
  {
    RunKeepsInv(start, steps);
    MutationStartsAtMostOnce(start, steps, id);
    OnlyCloseOrReplayRemoves(Run(start, steps), step, id);
    assert TicketSound(Run(start, steps), Ticket(AutoLogin, id));
  }

  /**
   * Why fresh identities are assumed: a monitor that re-submits a candidate after its episode was closed by someone
   * else is told "created" again. After one alert, a second one for the same identity is licensed by such a
   * getOrCreate exactly when the bank has no episode at that moment.
   */
  lemma SecondAlertExactly(s: State, id: Id)
    requires Inv(s) && Ticket(ExpiredAlert, id) in s.performed
    ensures Ticket(ExpiredAlert, id) in OnCreate(s, id).open <==> id.bankCode !in s.episodes
  {
  }

  /** A history in which it happens: created, alerted, closed by another worker, and created again. */
  lemma StaleCandidateAlertsTwice(id: Id)
    ensures var t := Ticket(ExpiredAlert, id);
            var closed := OnClose(OnPerform(OnCreate(Initial(0), id), t), id);
            && Inv(closed) && !Allowed(closed, Create(id))
            && OnPerform(OnCreate(closed, id), t).performed == [t, t]
  {
  }

  // ---- manual recovery --------------------------------------------------------------------------------------

  /** Resolutions and outbox entries stay one-to-one, and an identity is resolved by hand at most once. */
  lemma ResolutionsAreOneToOne(start: int, steps: seq<Step>, i: nat, j: nat)
    requires var s := Run(start, steps);
             i < |s.resolutions| && j < |s.resolutions| && s.resolutions[i].episode == s.resolutions[j].episode
    ensures var s := Run(start, steps);
            && i == j
            && |s.outboxes| == |s.resolutions|
            && s.outboxes[i].resolution == s.resolutions[i].number == i + 1
  {
    RunKeepsInv(start, steps);
    var s := Run(start, steps);
    assert ResolutionSound(s, i) && OutboxSound(s, i);
  }

  /** The step moves the current episode `id` from "manual recovery required" to "resolved". */
  predicate ResolvesByHand(s: State, t: State, id: Id) {
    && Current(s, id) && s.episodes[id.bankCode].attempt == Some(ManualRecoveryRequired)
    && Current(t, id) && t.episodes[id.bankCode].attempt == Some(Resolved)
  }

  /**
   * A resolution by hand is in all three stores or in none, whatever the outbox step does: the episode is resolved
   * exactly when a resolution and exactly when an outbox entry appear, the two under one number and the entry open for
   * delivery; otherwise nothing has changed. Once resolved, no further command changes anything.
   */
  lemma ManualResolutionIsAtomic(s: State, id: Id, token: string, claim: string, d: Decision, fails: bool, again: Step)
    requires again.ResolveManualRecovery? && again.id == id
    ensures var t := Next(s, ResolveManualRecovery(id, token, claim, d, fails));
            && (ResolvesByHand(s, t, id) <==> |t.resolutions| == |s.resolutions| + 1)
            && (ResolvesByHand(s, t, id) <==> |t.outboxes| == |s.outboxes| + 1)
            && (if ResolvesByHand(s, t, id) then
                  && !fails
                  && t.resolutions[|s.resolutions|].episode == id && t.resolutions[|s.resolutions|].decision == d
                  && t.outboxes[|s.outboxes|].resolution == t.resolutions[|s.resolutions|].number
                  && OutboxClaimable(t.outboxes[|s.outboxes|], t.now)
                  && Next(t, again) == t
                else t == s)
  {
  }

  /**
   * A replay is granted only on a delivered "safe to retry" resolution whose audit event the sink holds; from then on
   * every later request, with whatever fresh identifiers, is answered with the same ones.
   */
  lemma ReplayIsGrantedOnce(start: int, steps: seq<Step>, k: nat, n: nat, r: Replay, later: Replay)
    requires k < |steps| && steps[k] == AuthorizeReplay(n, r)
    requires var s := Run(start, steps[..k]); Allowed(s, steps[k]) && ReplayOutcome(s, n, r).ReplayAuthorized?
    ensures var s := Run(start, steps[..k]);
            && s.resolutions[n - 1].decision == SafeToRetry
            && ResolutionEvent(n) in s.events
            && s.resolutions[n - 1].replay.None?
    ensures ReplayOutcome(Run(start, steps), n, later) == AlreadyAuthorized(r)
  {
    var s := Run(start, steps[..k]);
    RunKeepsInv(start, steps[..k]);
    assert OutboxSound(s, n - 1);
    assert steps[..k + 1][..k] == steps[..k];
    var t := Run(start, steps[..k + 1]);
    assert t == OnAuthorizeReplay(s, n, r);
    RunLater(start, steps, k + 1);
    assert ResolutionLater(t.resolutions[n - 1], Run(start, steps).resolutions[n - 1]);
  }

  /** The resolution was "safe to retry" and its audit has been delivered. */
  predicate Replayable(s: State, n: nat) {
    && 1 <= n <= |s.resolutions| == |s.outboxes|
    && s.resolutions[n - 1].decision == SafeToRetry && s.outboxes[n - 1].state == OutboxDelivered
  }

  /** Identifiers of a replay that some resolution was opened with, or was granted before. */
  predicate TakenIds(s: State, r: Replay) {
    exists i :: 0 <= i < |s.resolutions| &&
                var x := s.resolutions[i];
                || r.expiredEventId == x.episode.expiredEventId || r.runId == x.episode.runId
                || (x.replay.Some? && (r.expiredEventId == x.replay.value.expiredEventId
                                       || r.runId == x.replay.value.runId))
  }

  /**
   * Every answer to a replay request, exactly. A first request is granted whether the resolved episode is still there
   * or has been closed, and refused only once the bank has another one.
   */
  lemma ReplayAnswersExactly(s: State, n: nat, r: Replay)
    requires Inv(s)
    ensures var answer := ReplayOutcome(s, n, r);
            var first := Replayable(s, n) && s.resolutions[n - 1].replay.None?;
            var proper := Nonblank(r.expiredEventId) && Nonblank(r.runId) && r.expiredEventId != r.runId;
            var room := first && (var id := s.resolutions[n - 1].episode; id.bankCode !in s.episodes || Current(s, id));
            && (answer == ReplayAuthorized(r) <==> first && proper && room && !TakenIds(s, r))
            && (answer == ReplayIdsRejected <==> first && (!proper || (room && TakenIds(s, r))))
            && (answer == Ineligible <==> !Replayable(s, n) || (first && proper && !room))
            && (forall given :: answer == AlreadyAuthorized(given) <==>
                  Replayable(s, n) && s.resolutions[n - 1].replay == Some(given))
            && (answer.ReplayAuthorized? ==> answer.replay == r)
  {
    assert ReplayConflicts(s, r) <==> TakenIds(s, r);
    if 1 <= n <= |s.resolutions| { assert ResolutionSound(s, n - 1) && OutboxSound(s, n - 1); }
  }

  /** A granted replay opens a new, untouched episode of the same bank, and entitles nobody to another alert. */
  lemma ReplayLeavesExactly(s: State, n: nat, r: Replay)
    requires Inv(s) && ReplayOutcome(s, n, r).ReplayAuthorized?
    ensures var t, x := OnAuthorizeReplay(s, n, r), s.resolutions[n - 1];
            var id := Id(x.episode.bankCode, r.expiredEventId, r.runId);
            && t.episodes == s.episodes[id.bankCode := New(id, s.now)] && t.used == s.used + {id}
            && t.resolutions == s.resolutions[n - 1 := Resolution(n, x.episode, SafeToRetry, Some(r))]
            && t.outboxes == s.outboxes && t.events == s.events && t.now == s.now
            && t.granted == s.granted && t.open == s.open && t.performed == s.performed
  {
    assert ResolutionSound(s, n - 1);
  }

  /** Identifiers granted to replays so far never repeat. */
  ghost predicate ReplaysDistinct(s: State) {
    forall i, j :: 0 <= i < |s.resolutions| && 0 <= j < |s.resolutions| && i != j
                   && s.resolutions[i].replay.Some? && s.resolutions[j].replay.Some? ==>
      var a, b := s.resolutions[i].replay.value, s.resolutions[j].replay.value;
      a.expiredEventId != b.expiredEventId && a.runId != b.runId
  }

  /** Every replay has an identity of its own: one that was used for it, and not that of the episode it replays. */
  ghost predicate ReplaysOwned(s: State) {
    forall i :: 0 <= i < |s.resolutions| && s.resolutions[i].replay.Some? ==>
      var x := s.resolutions[i];
      && ReplayId(x, x.replay.value) in s.used
      && x.replay.value.expiredEventId != x.episode.expiredEventId && x.replay.value.runId != x.episode.runId
  }

  lemma GrantStaysDistinct(s: State, n: nat, r: Replay)
    requires ReplaysDistinct(s) && ReplayOutcome(s, n, r).ReplayAuthorized?
    ensures ReplaysDistinct(OnAuthorizeReplay(s, n, r))
  {
    var t := OnAuthorizeReplay(s, n, r);
    forall i, j | 0 <= i < |t.resolutions| && 0 <= j < |t.resolutions| && i != j
                  && t.resolutions[i].replay.Some? && t.resolutions[j].replay.Some?
      ensures var a, b := t.resolutions[i].replay.value, t.resolutions[j].replay.value;
              a.expiredEventId != b.expiredEventId && a.runId != b.runId
    {
      assert !ReplayConflicts(s, r);
    }
  }

  lemma GrantStaysOwned(s: State, n: nat, r: Replay)
    requires ReplaysOwned(s) && ReplayOutcome(s, n, r).ReplayAuthorized?
    ensures ReplaysOwned(OnAuthorizeReplay(s, n, r))
  {
    assert !ReplayConflicts(s, r);
  }

  /** The repository's own conflict check is enough for that: no assumption on where identifiers come from. */
  lemma ReplaysStayDistinct(s: State, step: Step)
    requires ReplaysDistinct(s) && ReplaysOwned(s)
    ensures ReplaysDistinct(Do(s, step)) && ReplaysOwned(Do(s, step))
  {
    if step.AuthorizeReplay? && ReplayOutcome(s, step.resolution, step.replay).ReplayAuthorized? {
      GrantStaysDistinct(s, step.resolution, step.replay);
      GrantStaysOwned(s, step.resolution, step.replay);
    }
  }

  lemma {:induction false} ReplaysKept(start: int, steps: seq<Step>)
    ensures ReplaysDistinct(Run(start, steps)) && ReplaysOwned(Run(start, steps))
  {
    if steps != [] {
      ReplaysKept(start, steps[..|steps| - 1]);
      ReplaysStayDistinct(Run(start, steps[..|steps| - 1]), steps[|steps| - 1]);
    }
  }

  /**
   * Over any history replay identifiers never repeat, and the only resolution that can carry the identifiers of a
   * replay is the one of the replayed episode itself.
   */
  lemma ReplaysNeverRepeat(start: int, steps: seq<Step>, i: nat, j: nat)
    requires var s := Run(start, steps); i < |s.resolutions| && j < |s.resolutions| && s.resolutions[i].replay.Some?
    ensures var x, y := Run(start, steps).resolutions[i], Run(start, steps).resolutions[j];
            var r := x.replay.value;
            && (y.replay.Some?
                && (y.replay.value.expiredEventId == r.expiredEventId || y.replay.value.runId == r.runId) ==>
                  i == j)
            && (y.episode.expiredEventId == r.expiredEventId || y.episode.runId == r.runId ==>
                  i != j && y.episode == ReplayId(x, r))
  {
    RunKeepsInv(start, steps);
    ReplaysKept(start, steps);
    assert ResolutionSound(Run(start, steps), j);
  }

  // ---- the audit outbox -------------------------------------------------------------------------------------

  /** Effectively exactly once: an acknowledged entry has exactly one event, and no event ever occurs twice. */
  lemma OutboxDeliversExactlyOnce(start: int, steps: seq<Step>, n: nat, event: EventId)
    ensures var s := Run(start, steps);
            && Occurrences(event, s.events) <= 1
            && (KnownOutbox(s, n) && s.outboxes[n - 1].state == OutboxDelivered ==>
                  Occurrences(ResolutionEvent(n), s.events) == 1)
  {
    RunKeepsInv(start, steps);
    var s := Run(start, steps);
    DistinctOccursOnce(event, s.events);
    DistinctOccursOnce(ResolutionEvent(n), s.events);
    if KnownOutbox(s, n) { assert OutboxSound(s, n - 1); }
  }

  /** Acknowledgement is absorbing, and what was recorded stays recorded. */
  lemma DeliveredIsAbsorbing(start: int, steps: seq<Step>, k: nat, n: nat)
    requires k <= |steps|
    requires var s := Run(start, steps[..k]); KnownOutbox(s, n) && s.outboxes[n - 1].state == OutboxDelivered
    ensures var s, t := Run(start, steps[..k]), Run(start, steps);
            KnownOutbox(t, n) && t.outboxes[n - 1] == s.outboxes[n - 1] && s.events <= t.events
  {
    RunLater(start, steps, k);
  }

  /**
   * No entry is ever stuck: it can be claimed exactly when it is unacknowledged and no lease on it is still running,
   * and then a claim makes its owner the holder.
   */
  lemma UndeliveredStaysClaimable(start: int, steps: seq<Step>, n: nat, wait: nat, owner: string, ms: int)
    requires KnownOutbox(Run(start, steps), n) && Nonblank(owner) && ms > 0
    ensures var s := Next(Run(start, steps), Elapse(wait));
            var o, t := s.outboxes[n - 1], Next(s, ClaimOutbox(n, owner, ms));
            && (OutboxClaimable(o, s.now) <==>
                  o.state != OutboxDelivered && (o.leaseExpiresAt.Some? ==> o.leaseExpiresAt.value < s.now))
            && (OutboxClaimable(o, s.now) <==> HoldsOutbox(t.outboxes[n - 1], owner) && t != s)
  {
    RunKeepsInv(start, steps);
    assert OutboxSound(Run(start, steps), n - 1);
  }

  /**
   * What becomes of an entry, exactly: a claim takes one nobody is delivering, and only its holder acknowledges it or
   * gives it back - to be claimed again at once. No other entry moves.
   */
  lemma OutboxMovesExactly(s: State, n: nat, owner: string, ms: int)
    requires Inv(s) && KnownOutbox(s, n) && Nonblank(owner) && ms > 0
    ensures var o := s.outboxes[n - 1];
            var claimed, acked, back := OnClaimOutbox(s, n, owner, ms), OnOutboxDelivered(s, n, owner),
                                        OnReleaseOutbox(s, n, owner);
            && claimed == (if o.state == OutboxDelivered
                              || (o.leaseExpiresAt.Some? && o.leaseExpiresAt.value >= s.now)
                           then s
                           else s.(outboxes := s.outboxes[n - 1 := Outbox(n, OutboxDelivering, Some(owner),
                                                                         Some(s.now + ms), None)]))
            && acked == (if o.leaseOwner != Some(owner) then s
                         else s.(outboxes := s.outboxes[n - 1 := Outbox(n, OutboxDelivered, None, None, Some(s.now))]))
            && back == (if o.leaseOwner != Some(owner) then s
                        else s.(outboxes := s.outboxes[n - 1 := Outbox(n, OutboxPending, None, None, None)]))
  {
    assert OutboxSound(s, n - 1);
    var o := s.outboxes[n - 1];
    assert o.state.OutboxPending? || o.state.OutboxDelivering? || o.state.OutboxDelivered?;
  }

  /** A claimed entry is kept from everybody else for exactly as long as was asked for. */
  lemma OutboxLeaseHolds(s: State, n: nat, owner: string, ms: int, wait: nat)
    requires KnownOutbox(s, n) && Nonblank(owner) && ms > 0 && OutboxClaimable(s.outboxes[n - 1], s.now)
    ensures var claimed := Next(Next(s, ClaimOutbox(n, owner, ms)), Elapse(wait));
            HoldsOutbox(claimed.outboxes[n - 1], owner)
                && (OutboxClaimable(claimed.outboxes[n - 1], claimed.now) <==> wait > ms)
  {
  }

  // ---- restoration without interference ---------------------------------------------------------------------

  /** One audit delivery that meets no other worker and no failure. */
  function QuietDelivery(s: State, id: Id, kind: AuditKind): State {
    Next(Next(s, Record(SessionEvent(kind, id.bankCode, id.expiredEventId))), MarkDelivered(id.bankCode, id.runId,
        kind))
  }

  /** The updates of one restoration that meets no other worker and no failure. */
  function QuietRestoration(s: State, id: Id): State
    requires Inv(s) && Current(s, id)
  {
    QuietDeliveryMarks(s, id, ExpiredAudit);
    var s1 := QuietDelivery(s, id, ExpiredAudit);
    QuietDeliveryMarks(s1, id, RestoredAudit);
    var s2 := QuietDelivery(s1, id, RestoredAudit);
    if UpdatePublication(CancelPublication, s2.episodes[id.bankCode], s2.now).TupleRejected? then s2
    else OnClose(OnApply(s2, id, CancelPublication), id)
  }

  lemma QuietDeliveryMarks(s: State, id: Id, kind: AuditKind)
    requires Inv(s) && Current(s, id)
    ensures var t := QuietDelivery(s, id, kind);
            Inv(t) && Current(t, id) && t.episodes[id.bankCode] == MarkAudit(s.episodes[id.bankCode], kind)
  {
    var event := SessionEvent(kind, id.bankCode, id.expiredEventId);
    var m := Next(s, Record(event));
    BookkeepingKeeps(s, Record(event));
    StepKeepsInv(m, MarkDelivered(id.bankCode, id.runId, kind));
  }

  /**
   * When restoring an undisturbed episode closes it: exactly when no claim, a mere reservation, or a resolved claim
   * that did not come from a scrape is on it. A resolved scrape-time claim makes the cancellation throw.
   */
  lemma QuietRestorationClosesExactly(s: State, id: Id)
    requires Inv(s) && Current(s, id)
    ensures var e := s.episodes[id.bankCode];
            !Current(QuietRestoration(s, id), id) <==>
              e.attempt.None? || e.attempt == Some(Reserved) || (e.attempt == Some(Resolved)
                  && e.source != Some(ScrapeTime))
  {
    var e := s.episodes[id.bankCode];
    QuietDeliveryMarks(s, id, ExpiredAudit);
    var s1 := QuietDelivery(s, id, ExpiredAudit);
    QuietDeliveryMarks(s1, id, RestoredAudit);
    var s2 := QuietDelivery(s1, id, RestoredAudit);
    RestoredClosesExactly(e, s2.now);
    ApplyStaysCurrent(s2, id, CancelPublication, id);
  }

  /** A scrape claims the episode of a fresh bank and resolves its claim. */
  function ScrapeResolves(id: Id, claim: string, ms: int): seq<Step> {
    [Create(id), Apply(id, ClaimLease(ViaScrape, claim, ms)), Apply(id, ResolveLease(ViaScrape, claim))]
  }

  lemma RunOne(start: int, steps: seq<Step>, step: Step)
    ensures Run(start, steps + [step]) == Next(Run(start, steps), step)
  {
    assert (steps + [step])[..|steps|] == steps;
  }

  /** What the scrape leaves: a resolved claim with no lease, on a publication that nobody took up. */
  function ScrapeResolved(id: Id, claim: string): Episode {
    New(id, 0).(claimToken := Some(claim), attempt := Some(Resolved), source := Some(ScrapeTime))
  }

  /** A scrape on an untouched episode claims it and resolves its claim. */
  lemma ScrapeStepsResolve(s: State, id: Id, claim: string, ms: int)
    requires Nonblank(claim) && ms > 0 && s.now == 0 && Current(s, id) && s.episodes[id.bankCode] == New(id, 0)
    ensures var claimed := Next(s, Apply(id, ClaimLease(ViaScrape, claim, ms)));
            var t := Next(claimed, Apply(id, ResolveLease(ViaScrape, claim)));
            Current(t, id) && t.episodes[id.bankCode] == ScrapeResolved(id, claim)
  {
    var claimed := New(id, 0).(claimToken := Some(claim), attempt := Some(Reserved), source := Some(ScrapeTime),
                               lease := Some(ms));
    assert UpdatePublication(ClaimLease(ViaScrape, claim, ms), New(id, 0), 0) == Updated(claimed);
    assert UpdatePublication(ResolveLease(ViaScrape, claim), claimed, 0) == Updated(ScrapeResolved(id, claim));
  }

  lemma ScrapeReaches(id: Id, claim: string, ms: int)
    requires Nonblank(claim) && ms > 0
    ensures var s := Run(0, ScrapeResolves(id, claim, ms));
            Current(s, id) && s.episodes[id.bankCode] == ScrapeResolved(id, claim)
  {
    var steps := ScrapeResolves(id, claim, ms);
    assert [] + [steps[0]] == [steps[0]];
    RunOne(0, [], steps[0]);
    RunOne(0, [steps[0]], steps[1]);
    RunOne(0, [steps[0]] + [steps[1]], steps[2]);
    assert steps == [steps[0]] + [steps[1]] + [steps[2]];
    ScrapeStepsResolve(Next(Initial(0), steps[0]), id, claim, ms);
  }

  /**
   * The exception is reached: three steps from an empty store there is a resolved scrape-time claim whose cancellation
   * throws, and an undisturbed restoration leaves that episode in place.
   */
  lemma ResolvedScrapeIsNotClosed(id: Id, claim: string, ms: int)
    requires Nonblank(claim) && ms > 0
    ensures var s := Run(0, ScrapeResolves(id, claim, ms));
            && Inv(s) && Current(s, id) && s.episodes[id.bankCode] == ScrapeResolved(id, claim)
            && UpdatePublication(CancelPublication, s.episodes[id.bankCode], s.now).TupleRejected?
            && Current(QuietRestoration(s, id), id)
  {
    RunKeepsInv(0, ScrapeResolves(id, claim, ms));
    ScrapeReaches(id, claim, ms);
    var s := Run(0, ScrapeResolves(id, claim, ms));
    RuntimeCheckFiresExactly(CancelPublication, s.episodes[id.bankCode], s.now);
    QuietRestorationClosesExactly(s, id);
  }
}
