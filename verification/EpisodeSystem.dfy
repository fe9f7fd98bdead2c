// Everything that races on the expiry episodes: monitors, queue workers, consumers, operators and audit deliverers.
//
// A step is one atomic update of the shared stores by anybody. The ledger part of the state remembers which effects
// (an automatic login, an alert) an update entitled its caller to, and which have been performed.
module EpisodeSystem {
  import opened Wrappers
  import opened ExpiryEpisodes
  import opened AuditSink

  datatype Decision = SafeToRetry | MutationConfirmed | ResolvedNoRetry

  datatype Replay = Replay(expiredEventId: string, runId: string)

  /** A manual-recovery resolution; the n-th one has number n. */
  datatype Resolution = Resolution(number: nat, episode: Id, decision: Decision, replay: Option<Replay>)

  datatype OutboxState = OutboxPending | OutboxDelivering | OutboxDelivered

  datatype Outbox = Outbox(
    resolution: nat, state: OutboxState, leaseOwner: Option<string>, leaseExpiresAt: Option<int>,
        deliveredAt: Option<int>)

  datatype Effect = AutoLogin | ExpiredAlert | ActiveAlert

  datatype Ticket = Ticket(effect: Effect, id: Id)

  datatype State = State(
    now: int,
    episodes: map<string, Episode>,
    resolutions: seq<Resolution>,
    outboxes: seq<Outbox>,
    events: seq<EventId>,
    // ledger
    used: set<Id>, granted: set<Ticket>, open: set<Ticket>, performed: seq<Ticket>)

  datatype Step =
    | Elapse(ms: nat)
    | Create(id: Id)
    | Apply(id: Id, op: Op)
    | ReconcileTerminalFailure(id: Id, envelopeToken: string, reason: FailureReason, at: int)
    | ResolveManualRecovery(id: Id, envelopeToken: string, claimToken: string, decision: Decision, outboxFails: bool)
    | AuthorizeReplay(resolution: nat, replay: Replay)
    | ObservedRestoration(bankCode: string, runId: string)
    | MarkDelivered(bankCode: string, runId: string, kind: AuditKind)
    | Close(id: Id)
    | Record(event: EventId)
    | ClaimOutbox(resolution: nat, owner: string, leaseMs: int)
    | MarkOutboxDelivered(resolution: nat, owner: string)
    | ReleaseOutbox(resolution: nat, owner: string)
    | Perform(ticket: Ticket)

  function Initial(now: int): State { State(now, map[], [], [], [], {}, {}, {}, []) }

  // ---- effects of one step ----------------------------------------------------------------------------------

  predicate Current(s: State, id: Id) { id.bankCode in s.episodes && s.episodes[id.bankCode].id == id }

  /** An identity that shares neither event nor run with any identity ever used. */
  predicate Unused(s: State, id: Id) {
    forall u :: u in s.used ==> u.expiredEventId != id.expiredEventId && u.runId != id.runId
  }

  function With(s: State, e: Episode): State { s.(episodes := s.episodes[e.id.bankCode := e]) }

  function Without(s: State, bankCode: string): State { s.(episodes := s.episodes - {bankCode}) }

  function Grant(s: State, t: Ticket): State { s.(granted := s.granted + {t}, open := s.open + {t}) }

  function Born(s: State, id: Id): State { With(s, New(id, s.now)).(used := s.used + {id}) }

  function OnCreate(s: State, id: Id): State {
    if id.bankCode in s.episodes then s else Grant(Born(s, id), Ticket(ExpiredAlert, id))
  }

  predicate StartsMutation(op: Op) { op.StartMutation? || op.StartMutationLease? }

  function OnApply(s: State, id: Id, op: Op): State {
    if !Accepted(op) || !Current(s, id) then s
    else
      match UpdatePublication(op, s.episodes[id.bankCode], s.now)
      case Updated(e) => if StartsMutation(op) then Grant(With(s, e), Ticket(AutoLogin, id)) else With(s, e)
      case _ => s
  }

  function OnReconcileTerminal(s: State, id: Id, token: string, reason: FailureReason, at: int): State {
    if !Current(s, id) then s
    else
      var e := s.episodes[id.bankCode];
      if ReconcileTerminalResult(e, token, reason, s.now) == Reconciled
      then With(s, ReconcileTerminal(e, reason, at, s.now)) else s
  }

  predicate ManuallyResolvable(s: State, id: Id, token: string, claimToken: string) {
    Nonblank(claimToken) && Current(s, id) && CanResolveManually(s.episodes[id.bankCode], token, claimToken)
  }

  /** A resolution and its outbox entry get the same number. */
  function WithResolution(s: State, id: Id, d: Decision): State {
    var n := |s.resolutions| + 1;
    s.(resolutions := s.resolutions + [Resolution(n, id, d, None)],
       outboxes := s.outboxes + [Outbox(n, OutboxPending, None, None, None)])
  }

  /** The outbox step may throw, and then nothing at all has been written. */
  function OnResolveManual(s: State, id: Id, token: string, claimToken: string, d: Decision, outboxFails: bool): State {
    if !ManuallyResolvable(s, id, token, claimToken) || outboxFails then s
    else WithResolution(With(s, ResolveManually(s.episodes[id.bankCode], s.now)), id, d)
  }

  datatype ReplayResult =
    | ReplayAuthorized(replay: Replay) | AlreadyAuthorized(replay: Replay) | Ineligible | ReplayIdsRejected

  predicate ReplayConflicts(s: State, r: Replay) {
    exists i :: 0 <= i < |s.resolutions| &&
                var x := s.resolutions[i];
                || x.episode.expiredEventId == r.expiredEventId || x.episode.runId == r.runId
                || (x.replay.Some? && (x.replay.value.expiredEventId == r.expiredEventId
                    || x.replay.value.runId == r.runId))
  }

  function ReplayOutcome(s: State, n: nat, r: Replay): ReplayResult {
    if !(1 <= n <= |s.resolutions|) || n > |s.outboxes| then Ineligible
    else
      var x, o := s.resolutions[n - 1], s.outboxes[n - 1];
      if x.decision != SafeToRetry || o.state != OutboxDelivered || o.deliveredAt.None? then Ineligible
      else if x.replay.Some? then AlreadyAuthorized(x.replay.value)
      else if !Nonblank(r.expiredEventId) || !Nonblank(r.runId) || r.expiredEventId == r.runId then ReplayIdsRejected
      else if x.episode.bankCode in s.episodes
              && (var e := s.episodes[x.episode.bankCode];
                  e.id != x.episode || e.publication != Published || e.attempt != Some(Resolved))
      then Ineligible
      else if ReplayConflicts(s, r) then ReplayIdsRejected
      else ReplayAuthorized(r)
  }

  function ReplayId(x: Resolution, r: Replay): Id { Id(x.episode.bankCode, r.expiredEventId, r.runId) }

  function OnAuthorizeReplay(s: State, n: nat, r: Replay): State {
    if !ReplayOutcome(s, n, r).ReplayAuthorized? then s
    else
      var x := s.resolutions[n - 1];
      Born(s, ReplayId(x, r)).(resolutions := s.resolutions[n - 1 := x.(replay := Some(r))])
  }

  /** The episode UPDATE of the observed-restoration transaction. */
  function OnObservedRestoration(s: State, bankCode: string, runId: string): State {
    if bankCode in s.episodes && s.episodes[bankCode].id.runId == runId
        && ObservedResolvable(s.episodes[bankCode], s.now)
    then s.(episodes := s.episodes[bankCode := ResolveObserved(s.episodes[bankCode], s.now)]) else s
  }

  predicate Markable(s: State, bankCode: string, runId: string, kind: AuditKind) {
    bankCode in s.episodes && s.episodes[bankCode].id.runId == runId && !AuditFlag(s.episodes[bankCode], kind)
  }

  function OnMarkDelivered(s: State, bankCode: string, runId: string, kind: AuditKind): State {
    if Markable(s, bankCode, runId, kind)
    then s.(episodes := s.episodes[bankCode := MarkAudit(s.episodes[bankCode], kind)]) else s
  }

  predicate Closable(s: State, id: Id) { Current(s, id) && CanClose(s.episodes[id.bankCode]) }

  function OnClose(s: State, id: Id): State {
    if Closable(s, id) then Grant(Without(s, id.bankCode), Ticket(ActiveAlert, id)) else s
  }

  predicate OutboxClaimable(o: Outbox, now: int) {
    o.state == OutboxPending
    || (o.state == OutboxDelivering && o.leaseExpiresAt.Some? && o.leaseExpiresAt.value < now)
  }

  predicate HoldsOutbox(o: Outbox, owner: string) { o.state == OutboxDelivering && o.leaseOwner == Some(owner) }

  predicate KnownOutbox(s: State, n: nat) { 1 <= n <= |s.outboxes| }

  function SetOutbox(s: State, n: nat, o: Outbox): State
    requires KnownOutbox(s, n)
  {
    s.(outboxes := s.outboxes[n - 1 := o])
  }

  function OnClaimOutbox(s: State, n: nat, owner: string, ms: int): State {
    if KnownOutbox(s, n) && Nonblank(owner) && ms > 0 && OutboxClaimable(s.outboxes[n - 1], s.now)
    then SetOutbox(s, n, s.outboxes[n - 1].(state := OutboxDelivering, leaseOwner := Some(owner),
        leaseExpiresAt := Some(s.now + ms)))
    else s
  }

  function OnOutboxDelivered(s: State, n: nat, owner: string): State {
    if KnownOutbox(s, n) && Nonblank(owner) && HoldsOutbox(s.outboxes[n - 1], owner)
    then SetOutbox(s, n, s.outboxes[n - 1].(state := OutboxDelivered, leaseOwner := None, leaseExpiresAt := None,
        deliveredAt := Some(s.now)))
    else s
  }

  function OnReleaseOutbox(s: State, n: nat, owner: string): State {
    if KnownOutbox(s, n) && Nonblank(owner) && HoldsOutbox(s.outboxes[n - 1], owner)
    then SetOutbox(s, n, s.outboxes[n - 1].(state := OutboxPending, leaseOwner := None, leaseExpiresAt := None))
    else s
  }

  function OnPerform(s: State, t: Ticket): State {
    s.(open := s.open - {t}, performed := s.performed + [t])
  }

  function Do(s: State, step: Step): State {
    match step
    case Elapse(ms) => s.(now := s.now + ms)
    case Create(id) => OnCreate(s, id)
    case Apply(id, op) => OnApply(s, id, op)
    case ReconcileTerminalFailure(id, token, reason, at) => OnReconcileTerminal(s, id, token, reason, at)
    case ResolveManualRecovery(id, token, claim, d, fails) => OnResolveManual(s, id, token, claim, d, fails)
    case AuthorizeReplay(n, r) => OnAuthorizeReplay(s, n, r)
    case ObservedRestoration(bank, run) => OnObservedRestoration(s, bank, run)
    case MarkDelivered(bank, run, kind) => OnMarkDelivered(s, bank, run, kind)
    case Close(id) => OnClose(s, id)
    case Record(e) => s.(events := Recorded(s.events, e))
    case ClaimOutbox(n, owner, ms) => OnClaimOutbox(s, n, owner, ms)
    case MarkOutboxDelivered(n, owner) => OnOutboxDelivered(s, n, owner)
    case ReleaseOutbox(n, owner) => OnReleaseOutbox(s, n, owner)
    case Perform(t) => OnPerform(s, t)
  }

  /**
   * The discipline every caller keeps. New identities are fresh (they come from a random UUID); an audit flag is set,
   * and an outbox entry acknowledged, only after the sink has the event; an effect is performed on its ticket.
   */
  predicate Allowed(s: State, step: Step) {
    match step
    case Create(id) => id.bankCode in s.episodes || Unused(s, id)
    case AuthorizeReplay(n, r) =>
      ReplayOutcome(s, n, r).ReplayAuthorized? ==> Unused(s, ReplayId(s.resolutions[n - 1], r))
    case MarkDelivered(bank, run, kind) =>
      Markable(s, bank, run, kind) ==> SessionEvent(kind, bank, s.episodes[bank].id.expiredEventId) in s.events
    case MarkOutboxDelivered(n, _) => ResolutionEvent(n) in s.events
    case Perform(t) => t in s.open
    case _ => true
  }

  function Next(s: State, step: Step): State { if Allowed(s, step) then Do(s, step) else s }

  function Run(start: int, steps: seq<Step>): State {
    if steps == [] then Initial(start)
    else Next(Run(start, steps[..|steps| - 1]), steps[|steps| - 1])
  }

  // ---- invariant --------------------------------------------------------------------------------------------

  ghost predicate EpisodesSound(s: State) {
    forall b :: b in s.episodes ==>
      var e := s.episodes[b];
      && e.id.bankCode == b && e.id in s.used && WellFormed(e)
      && (e.expiredAudit ==> SessionEvent(ExpiredAudit, b, e.id.expiredEventId) in s.events)
      && (e.restoredAudit ==> SessionEvent(RestoredAudit, b, e.id.expiredEventId) in s.events)
  }

  ghost predicate IdentitiesUnique(s: State) {
    forall u, v :: u in s.used && v in s.used && (u.expiredEventId == v.expiredEventId || u.runId == v.runId) ==> u == v
  }

  predicate OutboxSound(s: State, i: nat)
    requires i < |s.outboxes|
  {
    var o := s.outboxes[i];
    && o.resolution == i + 1
    && (o.state == OutboxDelivered ==> o.deliveredAt.Some? && ResolutionEvent(i + 1) in s.events)
    && (o.state != OutboxDelivered ==> o.deliveredAt.None?)
    && (o.state == OutboxDelivering <==> o.leaseOwner.Some?)
    && (o.state == OutboxDelivering <==> o.leaseExpiresAt.Some?)
  }

  predicate ResolutionSound(s: State, i: nat)
    requires i < |s.resolutions| == |s.outboxes|
  {
    var x := s.resolutions[i];
    && x.number == i + 1
    && x.episode in s.used
    && (Current(s, x.episode) ==>
          var e := s.episodes[x.episode.bankCode]; e.attempt == Some(Resolved) && e.publication == Published)
    && (x.replay.Some? ==> x.decision == SafeToRetry && s.outboxes[i].state == OutboxDelivered)
  }

  ghost predicate ResolutionsSound(s: State) {
    && |s.resolutions| == |s.outboxes|
    && (forall i :: 0 <= i < |s.outboxes| ==> OutboxSound(s, i))
    && (forall i :: 0 <= i < |s.resolutions| ==> ResolutionSound(s, i))
    && (forall i, j :: 0 <= i < j < |s.resolutions| ==> s.resolutions[i].episode != s.resolutions[j].episode)
  }

  /** What a ticket that was ever granted says about its episode for ever after. */
  predicate TicketSound(s: State, t: Ticket) {
    && t.id in s.used
    && (t.effect == AutoLogin && Current(s, t.id) ==>
          var a := s.episodes[t.id.bankCode].attempt; a.Some? && a != Some(Reserved))
    && (t.effect == ActiveAlert ==> !Current(s, t.id))
  }

  ghost predicate LedgerSound(s: State) {
    && (forall t :: t in s.granted ==> TicketSound(s, t))
    && s.open <= s.granted
    && (forall i :: 0 <= i < |s.performed| ==> s.performed[i] in s.granted && s.performed[i] !in s.open)
    && Distinct(s.performed)
  }

  ghost predicate Inv(s: State) {
    && EpisodesSound(s)
    && IdentitiesUnique(s)
    && ResolutionsSound(s)
    && LedgerSound(s)
    && Distinct(s.events)
  }

  // ---- what any number of steps may do ----------------------------------------------------------------------

  predicate ResolutionLater(x: Resolution, y: Resolution) {
    && y.number == x.number && y.episode == x.episode && y.decision == x.decision
    && (x.replay.Some? ==> y.replay == x.replay)
  }

  /**
   * Stores only grow: identities, events, resolutions and performed effects stay; an acknowledged outbox entry is
   * final; an identity that was used is either still the same episode, moved forward, or gone for ever.
   */
  ghost predicate Later(s: State, t: State) {
    && s.now <= t.now
    && s.used <= t.used && s.granted <= t.granted
    && s.events <= t.events && s.performed <= t.performed
    && |s.resolutions| <= |t.resolutions| && |s.outboxes| <= |t.outboxes|
    && (forall i :: 0 <= i < |s.resolutions| ==> ResolutionLater(s.resolutions[i], t.resolutions[i]))
    && (forall i :: 0 <= i < |s.outboxes| && s.outboxes[i].state == OutboxDelivered ==> t.outboxes[i] == s.outboxes[i])
    && (forall id :: id in s.used && Current(t, id) ==>
          Current(s, id) && EvolvesTo(s.episodes[id.bankCode], t.episodes[id.bankCode]))
  }
}
