// Deciding whether a bank session is authenticated: the coordinator with its probe-and-lease loop, and the precondition
// above it that also runs the login.
//
// The coordinator keeps the replies it was given, and each of its branches is shown to be the one `CoordinatorReplies`
// takes on that reply. What a quiet call comes to is stated by the two stores and the portal's answer alone.
module SessionCoordinator {
  import opened Wrappers
  import opened AttemptMachine
  import A = AttemptRow
  import opened AttemptRepository
  import opened AuthorityHandle
  import opened AuthorityMint
  import opened LoginPlan
  import opened MutationRunner
  import F = FencedExecution
  import opened ExpiryEpisodes
  import S = EpisodeSystem
  import P = EpisodeProofs
  import opened ExpiryStore
  import R = ObservedRestoration
  import opened ObservedResolver
  import opened CoordinatorReplies

  datatype Precondition =
    | PreconditionMet | RetryDelivery | PreconditionReview(review: Review) | PreconditionInProgress
    | PreconditionCancelled | PreconditionInvalid

  /** What a coordination went through: the coordinator's own conversation, and then the mint's. */
  datatype Trace = Trace(conversation: Conversation, mintProbe: Option<Probe>, mintPasses: nat)

  // ---- what a quiet coordination comes to -------------------------------------------------------------------

  /** An observed session once its attempt is leased: the expiry episode, if there is one to restore, decides. */
  function CompletedAs(c: Completion, key: R.Key, episode: Option<Episode>, now: int): SessionState {
    if c == AttemptOnly then SessionAuthenticated(ObservedSession)
    else if !R.OfRun(key, episode) then NeedsOperatorAction(RestorationStateConflict)
    else if R.MayStillMutate(episode.value, now) then MutationInProgress
    else if R.NothingToResolve(episode.value) then NeedsOperatorAction(RestorationStateConflict)
    else SessionAuthenticated(ObservedSession)
  }

  /** By the portal's answer; `None` goes to the mint. */
  function ByPortal(portal: Probe, completed: SessionState): Option<SessionState> {
    match portal
    case ProbeAuthenticated => Some(completed)
    case ProbeUnauthenticated => None
    case ProbeUnavailable => Some(RetryLater(SessionProbeUnavailable))
  }

  /** A lapsed lease that can become no retry any more fails the attempt. */
  function LapsedAs(slot: Option<A.Row>): SessionState
    requires slot.Some?
  {
    NeedsOperatorAction(FromAttempt(Classify(slot.value.phase, TransientInfrastructure).operatorReason))
  }

  /** The retries consumed, and how many they are once a lapsed lease has become a retry. */
  function AttemptsOnceTaken(slot: Option<A.Row>, id: string, now: int): int {
    A.RetriesOf(slot) + if LapsedLease(slot, id, now) then 1 else 0
  }

  /** Before the mint: by the row if it is over, held, or lapsed for good; by the portal otherwise. */
  ghost predicate SettledBy(r: Option<SessionState>, portal: Probe, c: Completion, key: R.Key, slot: Option<A.Row>,
                            episode: Option<Episode>, now: int, id: string) {
    if Over(slot, id) then r.Some? && SaysOver(r.value, slot, id)
    else if LeasedTo(slot, id) && !LapsedLease(slot, id, now) then r == Some(LeaseInProgress)
    else if LapsedLease(slot, id, now) && !Retryable(slot) then r == Some(LapsedAs(slot))
    else if OthersRow(slot, id) then r == ByPortal(portal, NeedsOperatorAction(IdentityConflictReview))
    else r == ByPortal(portal, CompletedAs(c, key, episode, now))
  }

  // ---- the coordinator --------------------------------------------------------------------------------------

  method FindTerminalOrRetry(repo: AttemptRepository, id: string, quiet: bool)
      returns (r: SessionState, reply: Reply)
    requires repo.Valid()
    modifies repo
    ensures repo.Valid() && Later(old(repo.slot), old(repo.now), repo.slot, repo.now)
    ensures Settled(r, repo.slot, id)
    ensures Fits(Finding, reply) && Told(reply, repo.slot, id, repo.now) && OnFind(reply) == Answered(r)
  {
    reply := ReadRow(repo, id, quiet);
    if reply.NoReply? || reply.found.None? { return RetryLater(StateChanged), reply; }
    var resolved := Terminal(reply.found.value);
    return if resolved.Some? then resolved.value else RetryLater(StateChanged), reply;
  }

  /** What a probe decides by itself; "authenticated" goes on to complete the attempt. */
  datatype Observation = ProbeSettles(state: SessionState) | MustAuthenticate | SawAuthenticated

  method ProbeSession(portal: Probe, quiet: bool) returns (r: Observation, reply: Reply)
    ensures r.ProbeSettles? ==> r.state.SessionCancelled? || r.state == RetryLater(SessionProbeUnavailable)
    ensures Fits(Probing, reply) && Fits(ProbingFirst, reply)
    ensures r.SawAuthenticated? <==> reply == Probed(ProbeAuthenticated)
    ensures r.MustAuthenticate? <==> reply == Probed(ProbeUnauthenticated)
    ensures r.ProbeSettles? ==> forall next :: OnProbe(reply, next) == Answered(r.state)
    ensures quiet ==>
              && (r.SawAuthenticated? <==> portal == ProbeAuthenticated)
              && (r.MustAuthenticate? <==> portal == ProbeUnauthenticated)
              && (r.ProbeSettles? ==> r.state == RetryLater(SessionProbeUnavailable))
  {
    reply := Observe(portal, quiet);
    if reply.NoReply? { return ProbeSettles(RetryLater(SessionProbeUnavailable)), reply; }
    if reply.Aborted? { return ProbeSettles(SessionCancelled), reply; }
    match reply.probe
    case ProbeAuthenticated => return SawAuthenticated, reply;
    case ProbeUnauthenticated => return MustAuthenticate, reply;
    case ProbeUnavailable => return ProbeSettles(RetryLater(SessionProbeUnavailable)), reply;
  }

  /** Durable alone: the attempt's own completion. */
  method CompleteAttempt(repo: AttemptRepository, o: A.Owner, quiet: bool) returns (r: SessionState, reply: Reply)
    requires repo.Valid()
    modifies repo
    ensures repo.Valid() && Later(old(repo.slot), old(repo.now), repo.slot, repo.now)
    ensures Founded(r, repo.slot, o.attemptId) && Fits(Completing(o), reply)
    ensures r == SessionAuthenticated(ObservedSession) || r == RetryLater(OwnershipChanged)
    ensures OnCompletion(AttemptOnly, reply, o) == r
    ensures quiet && A.Holds(old(repo.slot), o, old(repo.now)) ==> r == SessionAuthenticated(ObservedSession)
  {
    repo.Await(quiet);
    ghost var before := repo.slot;
    var threw := Fails(quiet);
    var completed := repo.CompleteAuthenticated(o, quiet);
    A.EvolvesTransitive(old(repo.slot), before, repo.slot);
    if threw { return RetryLater(OwnershipChanged), NoReply; }
    if !completed.Done? { return RetryLater(OwnershipChanged), AttemptNotCompleted; }
    reply := AttemptCompleted(completed.record);
    return if ConfirmsCompletion(completed.record, o) then SessionAuthenticated(ObservedSession)
        else RetryLater(OwnershipChanged), reply;
  }

  /** What the transaction answers to an owner that holds the attempt, as the coordinator takes it. */
  lemma RestorationCompletes(key: R.Key, slot: Option<A.Row>, episode: Option<Episode>, o: A.Owner, now: int)
    requires A.SoundSlot(slot) && (episode.Some? ==> WellFormed(episode.value))
    ensures R.ValidOwner(key, o) && A.Holds(slot, o, now) ==>
              OnCompletion(ExpiryRestoration, RestorationAnswered(R.Resolve(key, slot, episode, o, now).result), o)
              == CompletedAs(ExpiryRestoration, key, episode, now)
  {
    R.EpisodeAnswersExactly(key, slot, episode, o, now);
    R.AttemptAnswersExactly(key, slot, episode, o, now);
    R.BothOrNeither(key, slot, episode, o, now);
  }

  /** Durable with the expiry episode: the observed restoration. */
  method CompleteRestoration(repo: AttemptRepository, store: ExpiryStore, key: R.Key, o: A.Owner, quiet: bool)
    returns (r: SessionState, reply: Reply)
    requires repo.Valid() && store.Valid()
    modifies repo, store
    ensures repo.Valid() && store.Valid()
    ensures Later(old(repo.slot), old(repo.now), repo.slot, repo.now) && S.Later(old(store.View()), store.View())
    ensures Founded(r, repo.slot, o.attemptId) && Fits(Completing(o), reply)
    ensures r.SessionAuthenticated? ==> r.source == ObservedSession
    ensures r.SessionAuthenticated? || r == RetryLater(OwnershipChanged) || r.MutationInProgress?
              || r == NeedsOperatorAction(RestorationStateConflict)
    ensures OnCompletion(ExpiryRestoration, reply, o) == r
    ensures quiet && old(repo.now) == old(store.now) && R.ValidOwner(key, o)
            && A.Holds(old(repo.slot), o, old(repo.now)) ==>
              r == CompletedAs(ExpiryRestoration, key, old(R.EpisodeOf(store.View(), key.bankCode)), old(repo.now))
  {
    RestorationCompletes(key, repo.slot, R.EpisodeOf(store.View(), key.bankCode), o, repo.now);
    var conflicts: nat :| quiet ==> conflicts == 0;
    var restored := ResolveObservedRestoration(repo, store, key, o, conflicts, quiet);
    if restored.None? { return NeedsOperatorAction(RestorationStateConflict), NoReply; }
    reply := RestorationAnswered(restored.value);
    match restored.value
    case Restored(evidence) =>
      return if BoundEvidence(evidence, o) then SessionAuthenticated(ObservedSession)
          else NeedsOperatorAction(RestorationStateConflict), reply;
    case RestoredEarlier(evidence) =>
      return if BoundEvidence(evidence, o) then SessionAuthenticated(ObservedSession)
          else NeedsOperatorAction(RestorationStateConflict), reply;
    case ActiveMutationOwner => return MutationInProgress, reply;
    case StaleOwner => return RetryLater(OwnershipChanged), reply;
    case LeaseExpired => return RetryLater(OwnershipChanged), reply;
    case _ => return NeedsOperatorAction(RestorationStateConflict), reply;
  }

  /** The session was observed and the lease is ours: make it durable, alone or with the expiry episode. */
  method CompleteObserved(repo: AttemptRepository, store: ExpiryStore, key: R.Key, o: A.Owner, completion: Completion,
      quiet: bool)
    returns (r: SessionState, reply: Reply)
    requires repo.Valid() && store.Valid()
    modifies repo, store
    ensures repo.Valid() && store.Valid()
    ensures Later(old(repo.slot), old(repo.now), repo.slot, repo.now) && S.Later(old(store.View()), store.View())
    ensures Founded(r, repo.slot, o.attemptId) && Fits(Completing(o), reply)
    ensures r.SessionAuthenticated? ==> r.source == ObservedSession
    ensures OnlyRestoring(r, completion == ExpiryRestoration)
    ensures r.SessionAuthenticated? || r == RetryLater(OwnershipChanged) || r.MutationInProgress?
              || r == NeedsOperatorAction(RestorationStateConflict)
    ensures OnCompletion(completion, reply, o) == r
    ensures quiet && old(repo.now) == old(store.now) && R.ValidOwner(key, o)
            && A.Holds(old(repo.slot), o, old(repo.now)) ==>
              r == CompletedAs(completion, key, old(R.EpisodeOf(store.View(), key.bankCode)), old(repo.now))
  {
    P.BookkeepingKeeps(store.View(), S.Elapse(0));
    if completion == AttemptOnly {
      r, reply := CompleteAttempt(repo, o, quiet);
    } else {
      r, reply := CompleteRestoration(repo, store, key, o, quiet);
    }
  }

  /** The next reply of a conversation that is still open. */
  method Hear(c: Completion, v: Conversation, r: Reply) returns (w: Conversation)
    requires Follows(c, v) && !Final(v.stage) && Fits(v.stage, r)
    ensures Follows(c, w) && w.stage == OnReply(c, v.stage, v.passes, r)
    ensures w.passes == v.passes + if EntersPass(v.stage, w.stage) then 1 else 0
  {
    HeardFollows(c, v, r);
    w := Heard(c, v, r);
  }

  /** How the coordination begins: it settles, turns to the mint, or enters the loop, a probe still owed or not. */
  datatype Opening = OpeningSettles(state: SessionState) | OpeningMustAuthenticate | EnterLoop(shouldProbe: bool)

  function StageAfter(r: Opening): Stage {
    match r
    case OpeningSettles(state) => Answered(state)
    case OpeningMustAuthenticate => MustMint
    case EnterLoop(shouldProbe) => if shouldProbe then Probing else Stage.Leasing
  }

  method CreateObserved(repo: AttemptRepository, id: string, quiet: bool)
      returns (r: Option<SessionState>, reply: Reply)
    requires repo.Valid()
    modifies repo
    ensures repo.Valid() && Later(old(repo.slot), old(repo.now), repo.slot, repo.now)
    ensures r.Some? ==> Settled(r.value, repo.slot, id)
    ensures Fits(Creating, reply) && OnCreate(reply) == if r.Some? then Answered(r.value) else Stage.Leasing
    ensures quiet && Nonblank(id) ==>
              && repo.now == old(repo.now)
              && (old(repo.slot).None? ==> r.None? && Free(repo.slot, id))
              && (OthersRow(old(repo.slot), id) ==>
                    r == Some(NeedsOperatorAction(IdentityConflictReview)) && repo.slot == old(repo.slot))
  {
    reply := CreateRow(repo, id, quiet);
    if reply.NoReply? { return Some(RetryLater(StateChanged)), reply; }
    if reply.Conflict? { return Some(NeedsOperatorAction(IdentityConflictReview)), reply; }
    return Terminal(reply.record), reply;
  }

  /** No row of this attempt yet: nothing is created before a probe has said "authenticated". */
  method OpenMissing(repo: AttemptRepository, id: string, completion: Completion, portal: Probe, quiet: bool,
      v: Conversation)
    returns (r: Opening, w: Conversation)
    requires repo.Valid() && Follows(completion, v) && v.stage == ProbingFirst
    modifies repo
    ensures repo.Valid() && Later(old(repo.slot), old(repo.now), repo.slot, repo.now)
    ensures r.OpeningSettles? ==> Settled(r.state, repo.slot, id) || r.state.SessionCancelled?
    ensures Follows(completion, w) && w.stage == StageAfter(r)
    ensures w.passes == v.passes + if r.EnterLoop? then 1 else 0
    ensures quiet && Nonblank(id) && Mine(old(repo.slot), id).None? ==>
              && repo.now == old(repo.now)
              && (match portal
                  case ProbeUnavailable => r == OpeningSettles(RetryLater(SessionProbeUnavailable))
                  case ProbeUnauthenticated => r == OpeningMustAuthenticate
                  case ProbeAuthenticated =>
                    if old(repo.slot).None? then r == EnterLoop(false) && Free(repo.slot, id)
                    else r == OpeningSettles(NeedsOperatorAction(IdentityConflictReview)))
              && (portal != ProbeAuthenticated || old(repo.slot).Some? ==> repo.slot == old(repo.slot))
  {
    var observed, probed := ProbeSession(portal, quiet);
    w := Hear(completion, v, probed);
    if observed.ProbeSettles? { return OpeningSettles(observed.state), w; }
    if observed.MustAuthenticate? { return OpeningMustAuthenticate, w; }
    var existing, created := CreateObserved(repo, id, quiet);
    w := Hear(completion, w, created);
    return if existing.Some? then OpeningSettles(existing.value) else EnterLoop(false), w;
  }

  /** What a quiet opening comes to: a row that is there decides whether a probe is owed, a missing one is probed. */
  predicate OpenedBy(r: Opening, portal: Probe, before: Option<A.Row>, after: Option<A.Row>, id: string) {
    if Over(before, id) then r.OpeningSettles? && SaysOver(r.state, before, id)
    else if Mine(before, id).Some? then after == before && r == EnterLoop(Free(before, id))
    else
      match portal
      case ProbeUnavailable => r == OpeningSettles(RetryLater(SessionProbeUnavailable))
      case ProbeUnauthenticated => after == before && r == OpeningMustAuthenticate
      case ProbeAuthenticated =>
        if before.None? then r == EnterLoop(false) && Free(after, id)
        else r == OpeningSettles(NeedsOperatorAction(IdentityConflictReview))
  }

  method Open(repo: AttemptRepository, id: string, completion: Completion, portal: Probe, quiet: bool)
      returns (r: Opening, v: Conversation)
    requires repo.Valid()
    modifies repo
    ensures repo.Valid() && Later(old(repo.slot), old(repo.now), repo.slot, repo.now)
    ensures r.OpeningSettles? ==> Settled(r.state, repo.slot, id) || r.state.SessionCancelled?
    ensures Follows(completion, v) && v.stage == StageAfter(r) && v.passes == if r.EnterLoop? then 1 else 0
    ensures quiet && Nonblank(id) ==>
              repo.now == old(repo.now) && OpenedBy(r, portal, old(repo.slot), repo.slot, id)
  {
    var read := ReadRow(repo, id, quiet);
    v := Hear(completion, BEGIN, read);
    if read.NoReply? { return OpeningSettles(RetryLater(StateChanged)), v; }
    if read.found.Some? {
      var existing := Terminal(read.found.value);
      return if existing.Some? then OpeningSettles(existing.value) else EnterLoop(read.found.value.lease.None?), v;
    }
    ghost var before := repo.slot;
    r, v := OpenMissing(repo, id, completion, portal, quiet, v);
    A.EvolvesTransitive(old(repo.slot), before, repo.slot);
  }

  /** A lapsed lease met by the coordinator; `None` goes around again, with a probe. */
  method ReconcileObserved(repo: AttemptRepository, id: string, completion: Completion, quiet: bool, v: Conversation)
    returns (r: Option<SessionState>, w: Conversation)
    requires repo.Valid() && Follows(completion, v) && v.stage == Reconciling
    modifies repo
    ensures repo.Valid() && Later(old(repo.slot), old(repo.now), repo.slot, repo.now)
    ensures r.Some? ==> Settled(r.value, repo.slot, id)
    ensures Follows(completion, w) && w.stage == if r.Some? then Answered(r.value) else Probing
    ensures w.passes == v.passes + if r.Some? then 0 else 1
    ensures quiet && LapsedLease(old(repo.slot), id, old(repo.now)) ==>
              && repo.now == old(repo.now)
              && if Retryable(old(repo.slot))
                 then r.None? && Free(repo.slot, id) && A.RetriesOf(repo.slot) == A.RetriesOf(old(repo.slot)) + 1
                 else r == Some(LapsedAs(old(repo.slot)))
  {
    var released := ReleaseLapsed(repo, id, quiet);
    w := Hear(completion, v, released);
    if released.NoReply? { return Some(RetryLater(StateChanged)), w; }
    if released.LeaseReleased? { return Terminal(released.record), w; }
    ghost var after := repo.slot;
    var state, found := FindTerminalOrRetry(repo, id, quiet);
    A.EvolvesTransitive(old(repo.slot), after, repo.slot);
    w := Hear(completion, w, found);
    return Some(state), w;
  }

  /** One pass of the coordinator's loop; a lapsed lease alone may lead to another. */
  datatype PassResult = PassSettles(state: SessionState) | PassMustAuthenticate | PassReconciles

  function StageAfterPass(r: PassResult, passes: nat): Stage {
    match r
    case PassSettles(state) => Answered(state)
    case PassMustAuthenticate => MustMint
    case PassReconciles => if passes > 1 then RETRY else Reconciling
  }

  /** The pass ends with the row it could not lease, or with the completion. */
  method Conclude(repo: AttemptRepository, store: ExpiryStore, key: R.Key, id: string, leased: Reply,
      completion: Completion, quiet: bool, v: Conversation)
    returns (r: SessionState, w: Conversation)
    requires repo.Valid() && store.Valid() && Follows(completion, v)
    requires leased.LeaseUnavailable? || (leased.LeaseTaken? && leased.owner.attemptId == id)
    requires v.stage == if leased.LeaseTaken? then Completing(leased.owner) else Finding
    modifies repo, store
    ensures repo.Valid() && store.Valid()
    ensures Later(old(repo.slot), old(repo.now), repo.slot, repo.now) && S.Later(old(store.View()), store.View())
    ensures Founded(r, repo.slot, id) && OnlyRestoring(r, completion == ExpiryRestoration)
    ensures !r.AuthenticationRequired? && !r.InvalidRequest?
    ensures Follows(completion, w) && w.stage == Answered(r) && w.passes == v.passes
    ensures quiet && leased.LeaseTaken? && old(repo.now) == old(store.now) && R.ValidOwner(key, leased.owner)
            && A.Holds(old(repo.slot), leased.owner, old(repo.now)) ==>
              r == CompletedAs(completion, key, old(R.EpisodeOf(store.View(), key.bankCode)), old(repo.now))
  {
    P.BookkeepingKeeps(store.View(), S.Elapse(0));
    var last;
    if leased.LeaseUnavailable? {
      r, last := FindTerminalOrRetry(repo, id, quiet);
    } else {
      r, last := CompleteObserved(repo, store, key, leased.owner, completion, quiet);
    }
    w := Hear(completion, v, last);
  }

  /** What a quiet pass comes to once no probe is owed. */
  ghost predicate LeasedBy(r: PassResult, c: Completion, key: R.Key, slot: Option<A.Row>, episode: Option<Episode>,
                           now: int, id: string) {
    && (Free(slot, id) ==> r == PassSettles(CompletedAs(c, key, episode, now)))
    && (LeasedTo(slot, id) ==>
          r == if LapsedLease(slot, id, now) then PassReconciles else PassSettles(LeaseInProgress))
  }

  /** The branch taken on a lease reply; `None` goes on to conclude. */
  predicate LeaseSays(r: Option<PassResult>, reply: Reply) {
    match r
    case Some(PassReconciles) => reply == LeaseLapsed
    case Some(PassSettles(state)) => forall reconciled :: OnLease(reply, reconciled) == Answered(state)
    case Some(PassMustAuthenticate) => false
    case None => reply.LeaseTaken? || reply.LeaseUnavailable?
  }

  method LeaseForPass(repo: AttemptRepository, id: string, token: string, leaseMs: int, quiet: bool)
      returns (r: Option<PassResult>, leased: Reply)
    requires repo.Valid()
    modifies repo
    ensures repo.Valid() && Later(old(repo.slot), old(repo.now), repo.slot, repo.now)
    ensures LeaseSays(r, leased) && Fits(Stage.Leasing, leased)
    ensures r.Some? && r.value.PassSettles? ==> Settled(r.value.state, repo.slot, id)
    ensures leased.LeaseTaken? ==>
              && leased.owner.attemptId == id && leased.owner.token == token && leased.owner.generation >= 0
              && A.Holds(repo.slot, leased.owner, repo.now)
    ensures quiet && Nonblank(token) && leaseMs > 0 ==>
              && repo.now == old(repo.now)
              && (Free(old(repo.slot), id) <==> leased.LeaseTaken?)
              && (LeasedTo(old(repo.slot), id) ==>
                    r == Some(if LapsedLease(old(repo.slot), id, old(repo.now)) then PassReconciles
                              else PassSettles(LeaseInProgress)))
              && (!leased.LeaseTaken? ==> repo.slot == old(repo.slot))
  {
    leased := TakeLease(repo, id, token, leaseMs, quiet);
    match leased
    case LeaseIsHeld => return Some(PassSettles(LeaseInProgress)), leased;
    case LeaseIsTerminal(record) => return Some(PassSettles(Terminal(record).value)), leased;
    case LeaseTakenByOther => return Some(PassSettles(RetryLater(OwnershipChanged))), leased;
    case LeaseLapsed => return Some(PassReconciles), leased;
    case NoReply => return Some(PassSettles(RetryLater(StateChanged))), leased;
    case _ => return None, leased;
  }

  /** The rest of a pass, once no probe is owed: take the lease and, if it is ours, complete. */
  method LeaseAndComplete(repo: AttemptRepository, store: ExpiryStore, key: R.Key, id: string, token: string,
      leaseMs: int, completion: Completion, quiet: bool, v: Conversation)
    returns (r: PassResult, w: Conversation)
    requires repo.Valid() && store.Valid()
    requires Follows(completion, v) && v.stage == Stage.Leasing
    modifies repo, store
    ensures repo.Valid() && store.Valid()
    ensures Later(old(repo.slot), old(repo.now), repo.slot, repo.now) && S.Later(old(store.View()), store.View())
    ensures r.PassSettles? ==>
              && Founded(r.state, repo.slot, id) && !r.state.AuthenticationRequired?
              && !r.state.InvalidRequest?
    ensures r.PassSettles? ==> OnlyRestoring(r.state, completion == ExpiryRestoration)
    ensures Follows(completion, w) && w.stage == StageAfterPass(r, v.passes) && w.passes == v.passes
    ensures !r.PassMustAuthenticate?
    ensures quiet && ValidRequest(key, id, token, leaseMs) && old(repo.now) == old(store.now) ==>
              && LeasedBy(r, completion, key, old(repo.slot), old(R.EpisodeOf(store.View(), key.bankCode)),
                          old(repo.now), id)
              && (r.PassReconciles? ==>
                    repo.slot == old(repo.slot) && repo.now == old(repo.now) && store.View() == old(store.View()))
  {
    P.BookkeepingKeeps(store.View(), S.Elapse(0));
    var decided, leased := LeaseForPass(repo, id, token, leaseMs, quiet);
    w := Hear(completion, v, leased);
    if decided.Some? { return decided.value, w; }
    ghost var before := repo.slot;
    var state;
    state, w := Conclude(repo, store, key, id, leased, completion, quiet, w);
    A.EvolvesTransitive(old(repo.slot), before, repo.slot);
    return PassSettles(state), w;
  }

  method CoordinatorPass(repo: AttemptRepository, store: ExpiryStore, key: R.Key, id: string, token: string,
      leaseMs: int, completion: Completion, shouldProbe: bool, portal: Probe, quiet: bool, v: Conversation)
    returns (r: PassResult, w: Conversation)
    requires repo.Valid() && store.Valid()
    requires Follows(completion, v) && v.stage == if shouldProbe then Probing else Stage.Leasing
    modifies repo, store
    ensures repo.Valid() && store.Valid()
    ensures Later(old(repo.slot), old(repo.now), repo.slot, repo.now) && S.Later(old(store.View()), store.View())
    ensures r.PassSettles? ==>
              && Founded(r.state, repo.slot, id) && !r.state.AuthenticationRequired?
              && !r.state.InvalidRequest?
    ensures r.PassSettles? ==> OnlyRestoring(r.state, completion == ExpiryRestoration)
    ensures Follows(completion, w) && w.stage == StageAfterPass(r, v.passes) && w.passes == v.passes
    ensures quiet && ValidRequest(key, id, token, leaseMs) && old(repo.now) == old(store.now) ==>
              && (if shouldProbe && portal == ProbeUnavailable then
                    r == PassSettles(RetryLater(SessionProbeUnavailable))
                  else if shouldProbe && portal == ProbeUnauthenticated then r == PassMustAuthenticate
                  else LeasedBy(r, completion, key, old(repo.slot), old(R.EpisodeOf(store.View(), key.bankCode)),
                                old(repo.now), id))
              && (!r.PassSettles? ==>
                    repo.slot == old(repo.slot) && repo.now == old(repo.now) && store.View() == old(store.View()))
  {
    P.BookkeepingKeeps(store.View(), S.Elapse(0));
    w := v;
    if shouldProbe {
      var observed, probed := ProbeSession(portal, quiet);
      w := Hear(completion, w, probed);
      if observed.ProbeSettles? { return PassSettles(observed.state), w; }
      if observed.MustAuthenticate? { return PassMustAuthenticate, w; }
    }
    r, w := LeaseAndComplete(repo, store, key, id, token, leaseMs, completion, quiet, w);
  }

  /** What a pass leaves to the loop: it concluded, or a lapsed lease was given back and the next pass begins. */
  datatype Round = RoundSettles(state: SessionState) | RoundMustAuthenticate | NextPass

  function StageAfterRound(r: Round): Stage {
    match r
    case RoundSettles(state) => Answered(state)
    case RoundMustAuthenticate => MustMint
    case NextPass => Probing
  }

  /** What a quiet round comes to. */
  ghost predicate RoundBy(r: Round, shouldProbe: bool, portal: Probe, c: Completion, key: R.Key, slot: Option<A.Row>,
                          episode: Option<Episode>, now: int, id: string) {
    if shouldProbe && portal == ProbeUnavailable then r == RoundSettles(RetryLater(SessionProbeUnavailable))
    else if shouldProbe && portal == ProbeUnauthenticated then r == RoundMustAuthenticate
    else if Free(slot, id) then r == RoundSettles(CompletedAs(c, key, episode, now))
    else if !LapsedLease(slot, id, now) then r == RoundSettles(LeaseInProgress)
    else if Retryable(slot) then r == NextPass
    else r == RoundSettles(LapsedAs(slot))
  }

  /** The body of the loop. */
  method CoordinatorRound(repo: AttemptRepository, store: ExpiryStore, key: R.Key, id: string, token: string,
      leaseMs: int, completion: Completion, shouldProbe: bool, reconciled: bool, portal: Probe, quiet: bool,
      v: Conversation)
    returns (r: Round, w: Conversation)
    requires repo.Valid() && store.Valid()
    requires Follows(completion, v) && v.stage == if shouldProbe then Probing else Stage.Leasing
    requires v.passes == if reconciled then 2 else 1
    modifies repo, store
    ensures repo.Valid() && store.Valid()
    ensures Later(old(repo.slot), old(repo.now), repo.slot, repo.now) && S.Later(old(store.View()), store.View())
    ensures r.RoundSettles? ==>
              && Founded(r.state, repo.slot, id) && !r.state.AuthenticationRequired? && !r.state.InvalidRequest?
              && OnlyRestoring(r.state, completion == ExpiryRestoration)
    ensures Follows(completion, w) && w.stage == StageAfterRound(r)
    ensures r == NextPass ==> !reconciled && w.passes == 2
    ensures quiet && ValidRequest(key, id, token, leaseMs) && old(repo.now) == old(store.now)
            && (Free(old(repo.slot), id) || (LeasedTo(old(repo.slot), id) && !reconciled)) ==>
              && RoundBy(r, shouldProbe, portal, completion, key, old(repo.slot),
                         old(R.EpisodeOf(store.View(), key.bankCode)), old(repo.now), id)
              && (!r.RoundSettles? ==> repo.now == old(repo.now) && store.View() == old(store.View()))
              && (r == NextPass ==> Free(repo.slot, id) && A.RetriesOf(repo.slot) == A.RetriesOf(old(repo.slot)) + 1)
              && (r == RoundMustAuthenticate ==> repo.slot == old(repo.slot))
  {
    var pass;
    pass, w := CoordinatorPass(repo, store, key, id, token, leaseMs, completion, shouldProbe, portal, quiet, v);
    if pass.PassSettles? { return RoundSettles(pass.state), w; }
    if pass.PassMustAuthenticate? { return RoundMustAuthenticate, w; }
    if reconciled { return RoundSettles(RetryLater(StateChanged)), w; }
    ghost var lapsed := repo.slot;
    var again;
    again, w := ReconcileObserved(repo, id, completion, quiet, w);
    A.EvolvesTransitive(old(repo.slot), lapsed, repo.slot);
    return if again.Some? then RoundSettles(again.value) else NextPass, w;
  }

  /** The loop; `None` says the session must be authenticated. */
  method CoordinatorLoop(repo: AttemptRepository, store: ExpiryStore, key: R.Key, id: string, token: string,
      leaseMs: int, completion: Completion, probeFirst: bool, portal: Probe, quiet: bool, start: Conversation)
    returns (r: Option<SessionState>, v: Conversation)
    requires repo.Valid() && store.Valid()
    requires Follows(completion, start) && start.stage == (if probeFirst then Probing else Stage.Leasing)
    requires start.passes == 1
    modifies repo, store
    ensures repo.Valid() && store.Valid()
    ensures Later(old(repo.slot), old(repo.now), repo.slot, repo.now) && S.Later(old(store.View()), store.View())
    ensures r.Some? ==> Founded(r.value, repo.slot, id) && !r.value.AuthenticationRequired? && !r.value.InvalidRequest?
    ensures r.Some? ==> OnlyRestoring(r.value, completion == ExpiryRestoration)
    ensures Follows(completion, v) && v.stage == if r.Some? then Answered(r.value) else MustMint
    ensures quiet && ValidRequest(key, id, token, leaseMs) && old(repo.now) == old(store.now)
            && (Free(old(repo.slot), id) || (LeasedTo(old(repo.slot), id) && !probeFirst)) ==>
              LoopedBy(r, probeFirst, portal, completion, key, old(repo.slot),
                       old(R.EpisodeOf(store.View(), key.bankCode)), old(repo.now), id)
              && (r.None? ==> Free(repo.slot, id) && repo.now == old(repo.now))
              && (r.None? ==> A.RetriesOf(repo.slot) == AttemptsOnceTaken(old(repo.slot), id, old(repo.now)))
  {
    P.BookkeepingKeeps(store.View(), S.Elapse(0));
    v := start;
    var shouldProbe, reconciled := probeFirst, false;
    while true
      invariant repo.Valid() && store.Valid()
      invariant Later(old(repo.slot), old(repo.now), repo.slot, repo.now) && S.Later(old(store.View()), store.View())
      invariant Follows(completion, v) && v.stage == if shouldProbe then Probing else Stage.Leasing
      invariant v.passes == if reconciled then 2 else 1
      invariant reconciled ==> shouldProbe
      invariant !reconciled ==>
                  && shouldProbe == probeFirst && repo.slot == old(repo.slot) && repo.now == old(repo.now)
                  && store.View() == old(store.View())
      invariant quiet && ValidRequest(key, id, token, leaseMs) && old(repo.now) == old(store.now)
                && (Free(old(repo.slot), id) || (LeasedTo(old(repo.slot), id) && !probeFirst)) && reconciled ==>
                  && LapsedLease(old(repo.slot), id, old(repo.now)) && Retryable(old(repo.slot))
                  && Free(repo.slot, id) && repo.now == old(repo.now) && store.View() == old(store.View())
                  && A.RetriesOf(repo.slot) == A.RetriesOf(old(repo.slot)) + 1
      decreases !reconciled
    {
      ghost var slot, state := repo.slot, store.View();
      var round;
      round, v := CoordinatorRound(repo, store, key, id, token, leaseMs, completion, shouldProbe, reconciled, portal,
          quiet, v);
      A.EvolvesTransitive(old(repo.slot), slot, repo.slot);
      P.LaterTransitive(old(store.View()), state, store.View());
      if round.RoundSettles? { return Some(round.state), v; }
      if round.RoundMustAuthenticate? { return None, v; }
      shouldProbe, reconciled := true, true;
    }
  }

  /** What a quiet loop comes to: a lapsed lease that becomes a retry is probed like a row that was free. */
  ghost predicate LoopedBy(r: Option<SessionState>, probeFirst: bool, portal: Probe, c: Completion, key: R.Key,
                           slot: Option<A.Row>, episode: Option<Episode>, now: int, id: string) {
    if Free(slot, id) && !probeFirst then r == Some(CompletedAs(c, key, episode, now))
    else if LeasedTo(slot, id) && !LapsedLease(slot, id, now) then r == Some(LeaseInProgress)
    else if LapsedLease(slot, id, now) && !Retryable(slot) then r == Some(LapsedAs(slot))
    else r == ByPortal(portal, CompletedAs(c, key, episode, now))
  }

  /** Everything before the mint; `None` says the session must be authenticated. */
  method Settle(repo: AttemptRepository, store: ExpiryStore, key: R.Key, id: string, token: string, leaseMs: int,
      completion: Completion, portal: Probe, quiet: bool)
    returns (r: Option<SessionState>, v: Conversation)
    requires repo.Valid() && store.Valid()
    modifies repo, store
    ensures repo.Valid() && store.Valid()
    ensures Later(old(repo.slot), old(repo.now), repo.slot, repo.now) && S.Later(old(store.View()), store.View())
    ensures r.Some? ==> Founded(r.value, repo.slot, id) && !r.value.AuthenticationRequired? && !r.value.InvalidRequest?
    ensures r.Some? ==> OnlyRestoring(r.value, completion == ExpiryRestoration)
    ensures Follows(completion, v) && v.stage == if r.Some? then Answered(r.value) else MustMint
    ensures quiet && ValidRequest(key, id, token, leaseMs) && old(repo.now) == old(store.now) ==>
              && SettledBy(r, portal, completion, key, old(repo.slot),
                           old(R.EpisodeOf(store.View(), key.bankCode)), old(repo.now), id)
              && (r.None? ==> Takeable(repo.slot, id) || OthersRow(repo.slot, id))
              && (r.None? ==> (OthersRow(repo.slot, id) <==> OthersRow(old(repo.slot), id)))
              && (r.None? ==> repo.now == old(repo.now))
              && (r.None? ==> A.RetriesOf(repo.slot) == AttemptsOnceTaken(old(repo.slot), id, old(repo.now)))
  {
    P.BookkeepingKeeps(store.View(), S.Elapse(0));
    var opening;
    opening, v := Open(repo, id, completion, portal, quiet);
    if opening.OpeningSettles? { return Some(opening.state), v; }
    if opening.OpeningMustAuthenticate? { return None, v; }
    ghost var entered := repo.slot;
    r, v := CoordinatorLoop(repo, store, key, id, token, leaseMs, completion, opening.shouldProbe, portal, quiet, v);
    A.EvolvesTransitive(old(repo.slot), entered, repo.slot);
  }

  /** The whole coordination, if it is quiet: settled by row and portal, or an authority in hand. */
  ghost predicate CoordinatedBy(r: SessionState, portal: Probe, c: Completion, key: R.Key, slot: Option<A.Row>,
                                episode: Option<Episode>, now: int, id: string) {
    if r.AuthenticationRequired? then
      !OthersRow(slot, id) && SettledBy(None, portal, c, key, slot, episode, now, id)
    else
      || SettledBy(Some(r), portal, c, key, slot, episode, now, id)
      || (&& OthersRow(slot, id) && portal == ProbeUnauthenticated
          && r == NeedsOperatorAction(IdentityConflictReview))
  }

  /** A request that was accepted: settled, or taken to the mint. */
  method CoordinateRequest(repo: AttemptRepository, store: ExpiryStore, key: R.Key, id: string, token: string,
      leaseMs: int, completion: Completion, portal: Probe, quiet: bool)
    returns (r: SessionState, trace: Trace)
    requires repo.Valid() && store.Valid() && ValidRequest(key, id, token, leaseMs)
    modifies repo, store
    ensures repo.Valid() && store.Valid()
    ensures Later(old(repo.slot), old(repo.now), repo.slot, repo.now) && S.Later(old(store.View()), store.View())
    ensures r != InvalidRequest && Founded(r, repo.slot, id) && Minted(r, repo, id, token)
    ensures OnlyRestoring(r, completion == ExpiryRestoration)
    ensures Follows(completion, trace.conversation) && Final(trace.conversation.stage) && trace.mintPasses <= 2
    ensures trace.conversation.stage.Answered? ==> r == trace.conversation.stage.state && trace.mintPasses == 0
    ensures r == SessionAuthenticated(ObservedSession) ==> trace.conversation.stage == Answered(r)
    ensures r.AuthenticationRequired? ==>
              && fresh(r.authority) && r.authority.leaseMs == leaseMs
              && trace.conversation.stage.MustMint? && trace.mintProbe == Some(ProbeUnauthenticated)
    ensures quiet && old(repo.now) == old(store.now) ==>
              && CoordinatedBy(r, portal, completion, key, old(repo.slot),
                               old(R.EpisodeOf(store.View(), key.bankCode)), old(repo.now), id)
              && (r.AuthenticationRequired? ==>
                    A.RetriesOf(repo.slot) == AttemptsOnceTaken(old(repo.slot), id, old(repo.now)))
  {
    P.BookkeepingKeeps(store.View(), S.Elapse(0));
    var settled, v := Settle(repo, store, key, id, token, leaseMs, completion, portal, quiet);
    if settled.Some? { return settled.value, Trace(v, None, 0); }
    ghost var before := repo.slot;
    var mintProbe, mintPasses, last;
    r, mintProbe, mintPasses, last :=
        AcquireAuthenticationMutationAuthority(repo, key, id, token, leaseMs, false, portal, quiet);
    A.EvolvesTransitive(old(repo.slot), before, repo.slot);
    trace := Trace(v, mintProbe, mintPasses);
  }

  /**
   * The coordinator: exactly the conversation its replies lead to, and then perhaps the mint. At most two passes, and
   * two more of the mint loop, whatever anybody answers. What it reports about the attempt is in the row; an authority
   * comes only after an "unauthenticated" probe, on a fresh lease. A quiet call answers by the stores and the portal.
   */
  method CoordinateAuthenticatedSessionState(repo: AttemptRepository, store: ExpiryStore, key: R.Key, id: string,
      token: string, leaseMs: int, completion: Completion, abortedAtStart: bool, portal: Probe, quiet: bool)
    returns (r: SessionState, trace: Trace)
    requires repo.Valid() && store.Valid()
    modifies repo, store
    ensures repo.Valid() && store.Valid()
    ensures Later(old(repo.slot), old(repo.now), repo.slot, repo.now) && S.Later(old(store.View()), store.View())
    ensures r.InvalidRequest? <==> !ValidRequest(key, id, token, leaseMs)
    ensures ValidRequest(key, id, token, leaseMs) && abortedAtStart ==>
              && r.SessionCancelled?
              && repo.slot == old(repo.slot)
    ensures Follows(completion, trace.conversation)
    ensures trace.conversation.passes <= 2 && |trace.conversation.replies| <= 8 && trace.mintPasses <= 2
    ensures !ValidRequest(key, id, token, leaseMs) || abortedAtStart <==> trace.conversation == BEGIN
    ensures trace.conversation.stage.Answered? ==> r == trace.conversation.stage.state && trace.mintPasses == 0
    ensures trace.conversation != BEGIN ==> Final(trace.conversation.stage)
    ensures Founded(r, repo.slot, id) && Minted(r, repo, id, token)
    ensures r.AuthenticationRequired? ==>
              && fresh(r.authority) && r.authority.leaseMs == leaseMs
              && trace.conversation.stage.MustMint? && trace.mintProbe == Some(ProbeUnauthenticated)
    // "Observed" means a probe said so, exactly unless the first read found the row owned and no lease had lapsed.
    ensures r == SessionAuthenticated(ObservedSession) ==>
              trace.conversation.stage == Answered(r) && ProbeAgrees(trace.conversation.replies)
    ensures OnlyRestoring(r, completion == ExpiryRestoration)
    ensures quiet && ValidRequest(key, id, token, leaseMs) && !abortedAtStart && old(repo.now) == old(store.now) ==>
              CoordinatedBy(r, portal, completion, key, old(repo.slot),
                            old(R.EpisodeOf(store.View(), key.bankCode)), old(repo.now), id)
              && (r.AuthenticationRequired? ==>
                    A.RetriesOf(repo.slot) == AttemptsOnceTaken(old(repo.slot), id, old(repo.now)))
  {
    P.BookkeepingKeeps(store.View(), S.Elapse(0));
    trace := Trace(BEGIN, None, 0);
    if !ValidRequest(key, id, token, leaseMs) { return InvalidRequest, trace; }
    if abortedAtStart { return SessionCancelled, trace; }
    r, trace := CoordinateRequest(repo, store, key, id, token, leaseMs, completion, portal, quiet);
    AlwaysConcludes(completion, trace.conversation.replies);
    if r == SessionAuthenticated(ObservedSession) { ObservedAgrees(completion, trace.conversation.replies); }
  }

  // ---- the precondition -------------------------------------------------------------------------------------

  function FromRunner(ran: RunnerResult): Precondition {
    match ran
    case RunnerAuthenticated => PreconditionMet
    case RunnerRetryClaimed => RetryDelivery
    case RunnerRetryExhausted => PreconditionReview(FromAttempt(TemporaryAuthenticationProblem))
    case RunnerFailed(reason) => PreconditionReview(FromAttempt(reason))
    case RunnerUnresolved => PreconditionReview(FromAttempt(AuthenticationAttemptRequiresReview))
  }

  /**
   * What an undisturbed login comes to: met by a success after the click, delivered again while nothing was filled in
   * and a retry is left, and otherwise for an operator - with the reason a rejection names.
   */
  function LoginBy(login: Login, retries: int): Precondition {
    if !login.starts || !login.stops then PreconditionReview(FromAttempt(AuthenticationAttemptRequiresReview))
    else
      match Reached(login.plan)
      case None => PreconditionReview(FromAttempt(AuthenticationAttemptRequiresReview))
      case Some(p) =>
        match login.result
        case Rejected(ProtectedOrMfaRejection) => PreconditionReview(FromAttempt(ProtectedAuthenticationStepDetected))
        case Rejected(IncompatibleFlowRejection) =>
          PreconditionReview(FromAttempt(BankLoginConfigurationRequiresReview))
        case Rejected(StructuralRejection) => PreconditionReview(FromAttempt(BankLoginConfigurationRequiresReview))
        case _ =>
          if login.result.Succeeded? && ClicksAt(p) == 1 then PreconditionMet
          else if (login.result.TransientUnavailable? || login.result.Cancelled?)
                  && !(exists i :: 0 <= i < |login.plan| && RealFill(login.plan[i]))
          then
            if retries < 2 then RetryDelivery else PreconditionReview(FromAttempt(TemporaryAuthenticationProblem))
          else PreconditionReview(FromAttempt(AuthenticationAttemptRequiresReview))
  }

  lemma LoginReported(login: Login, retries: int)
    ensures FromRunner(ReportedBy(login, retries)) == LoginBy(login, retries)
  {
    ReachedExactly(login.plan);
    if Reached(login.plan).Some? { F.DecisionFitsThePhase(login.result, Reached(login.plan).value); }
  }

  /** The runner on a minted authority; it may be reported to have thrown whatever it did. */
  method RunMinted(repo: AttemptRepository, authority: Authority, login: Login, quiet: bool)
      returns (r: Precondition, clicks: nat)
    requires repo.Valid() && authority.repository == repo
    modifies repo, authority
    ensures repo.Valid() && Later(old(repo.slot), old(repo.now), repo.slot, repo.now)
    ensures clicks <= 1
    ensures clicks == 1 ==>
              && repo.slot.Some? && repo.slot.value.attemptId == authority.owner.attemptId
              && repo.slot.value.phase == SubmitMayHaveBeenDispatched
    ensures r == PreconditionMet ==> DurablyAuthenticated(repo.slot, authority.owner.attemptId)
    ensures r.PreconditionMet? || r.RetryDelivery? || (r.PreconditionReview? && r.review.FromAttempt?)
    ensures r.PreconditionReview? && r.review.FromAttempt? ==>
              || r.review.reason == AuthenticationAttemptRequiresReview
              || DurablyFailed(repo.slot, authority.owner.attemptId, r.review.reason)
    ensures old(Undisturbed(authority, quiet)) ==> r == LoginBy(login, A.RetriesOf(old(repo.slot)))
  {
    LoginReported(login, A.RetriesOf(repo.slot));
    var ran;
    ran, clicks := MutationRunner.Run(authority, login, quiet);
    var throws := Fails(quiet);
    r := if throws then PreconditionReview(FromAttempt(AuthenticationAttemptRequiresReview)) else FromRunner(ran);
  }

  /** What a quiet precondition comes to, by the stores, the portal and the login. */
  ghost predicate PreconditionBy(r: Precondition, portal: Probe, c: Completion, key: R.Key, slot: Option<A.Row>,
                                 episode: Option<Episode>, now: int, id: string, login: Precondition) {
    if Over(slot, id) then
      match Mine(slot, id).value
      case FailedRecord(_, _, _, _, f, _) => r == PreconditionReview(FromAttempt(f.operatorReason))
      case _ => r == PreconditionMet
    else if LeasedTo(slot, id) && !LapsedLease(slot, id, now) then r == PreconditionInProgress
    else if LapsedLease(slot, id, now) && !Retryable(slot) then r == PreconditionReview(LapsedAs(slot).review)
    else if portal == ProbeUnavailable then r == RetryDelivery
    else if OthersRow(slot, id) then r == PreconditionReview(IdentityConflictReview)
    else if portal == ProbeUnauthenticated then r == login
    else if c == AttemptOnly then r == PreconditionMet
    else if R.OfRun(key, episode) && R.MayStillMutate(episode.value, now) then r == PreconditionInProgress
    else if R.OfRun(key, episode) && !R.NothingToResolve(episode.value) then r == PreconditionMet
    else r == PreconditionReview(RestorationStateConflict)
  }

  /** What the coordinator's answer is to the caller. */
  function FromState(state: SessionState): Precondition
    requires !state.AuthenticationRequired?
  {
    match state
    case SessionAuthenticated(_) => PreconditionMet
    case RetryLater(_) => RetryDelivery
    case LeaseInProgress => PreconditionInProgress
    case MutationInProgress => PreconditionInProgress
    case NeedsOperatorAction(review) => PreconditionReview(review)
    case SessionCancelled => PreconditionCancelled
    case InvalidRequest => PreconditionInvalid
  }

  lemma StateReported(state: SessionState, portal: Probe, c: Completion, key: R.Key, slot: Option<A.Row>,
      episode: Option<Episode>, now: int, id: string, login: Precondition)
    ensures CoordinatedBy(state, portal, c, key, slot, episode, now, id) ==>
              PreconditionBy(if state.AuthenticationRequired? then login else FromState(state),
                             portal, c, key, slot, episode, now, id, login)
  {
    if CoordinatedBy(state, portal, c, key, slot, episode, now, id) {
      if Over(slot, id) {
      } else if LeasedTo(slot, id) {
      } else {
        match portal
        case ProbeUnavailable =>
        case ProbeUnauthenticated =>
        case ProbeAuthenticated =>
      }
    }
  }

  /**
   * Coordinator and runner composed. "Authenticated" is reported only with this attempt's row durably authenticated,
   * and any failure reason but the catch-all "requires review" only with that failure in the row; at most one click
   * has been made on the way.
   */
  method CoordinateAuthenticatedSessionPrecondition(repo: AttemptRepository, store: ExpiryStore, key: R.Key,
      id: string, token: string, leaseMs: int, completion: Completion, abortedAtStart: bool, portal: Probe,
      login: Login, quiet: bool)
    returns (r: Precondition, clicks: nat)
    requires repo.Valid() && store.Valid()
    modifies repo, store
    ensures repo.Valid() && store.Valid()
    ensures Later(old(repo.slot), old(repo.now), repo.slot, repo.now) && S.Later(old(store.View()), store.View())
    ensures r == PreconditionMet ==> DurablyAuthenticated(repo.slot, id)
    ensures r == PreconditionInvalid <==> !ValidRequest(key, id, token, leaseMs)
    ensures clicks <= 1
    ensures clicks == 1 ==>
              && repo.slot.Some? && repo.slot.value.attemptId == id
              && repo.slot.value.phase == SubmitMayHaveBeenDispatched
    ensures r == PreconditionReview(IdentityConflictReview) ==> repo.slot.Some? && repo.slot.value.attemptId != id
    ensures match r
            case PreconditionReview(FromAttempt(reason)) =>
              reason == AuthenticationAttemptRequiresReview || DurablyFailed(repo.slot, id, reason)
            case _ => true
    ensures r == PreconditionReview(RestorationStateConflict) ==> completion == ExpiryRestoration && clicks == 0
    ensures ValidRequest(key, id, token, leaseMs) && abortedAtStart ==> r == PreconditionCancelled
    ensures quiet && ValidRequest(key, id, token, leaseMs) && !abortedAtStart && old(repo.now) == old(store.now) ==>
              PreconditionBy(r, portal, completion, key, old(repo.slot),
                             old(R.EpisodeOf(store.View(), key.bankCode)), old(repo.now), id,
                             LoginBy(login, AttemptsOnceTaken(old(repo.slot), id, old(repo.now))))
  {
    ghost var slot, episode, now := repo.slot, R.EpisodeOf(store.View(), key.bankCode), repo.now;
    var state, trace := CoordinateAuthenticatedSessionState(repo, store, key, id, token, leaseMs, completion,
        abortedAtStart, portal, quiet);
    clicks := 0;
    StateReported(state, portal, completion, key, slot, episode, now, id,
                  LoginBy(login, AttemptsOnceTaken(slot, id, now)));
    if !state.AuthenticationRequired? { return FromState(state), 0; }
    ghost var before := repo.slot;
    r, clicks := RunMinted(repo, state.authority, login, quiet);
    A.EvolvesTransitive(old(repo.slot), before, repo.slot);
  }
}
