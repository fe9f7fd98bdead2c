// The observed restoration as a resolver over the two stores: one serializable transaction, tried twice.
module ObservedResolver {
  import opened Wrappers
  import A = AttemptRow
  import opened AttemptRepository
  import opened ExpiryEpisodes
  import S = EpisodeSystem
  import P = EpisodeProofs
  import opened ExpiryStore
  import R = ObservedRestoration

  ghost function WorldOf(repo: AttemptRepository, store: ExpiryStore): R.World
    reads repo, store
  {
    R.World(repo.slot, store.View())
  }

  /** Every look of the transaction, in the code's order; `None` goes on to the updates. */
  method LookAtBoth(repo: AttemptRepository, store: ExpiryStore, key: R.Key, o: A.Owner)
      returns (r: Option<R.RestorationResult>)
    requires repo.Valid() && store.Valid() && repo.now == store.now
    ensures var episode := R.EpisodeOf(store.View(), key.bankCode);
            && (r.None? <==> R.Restorable(key, repo.slot, episode, o, repo.now))
            && (r.Some? ==> r.value == R.Resolve(key, repo.slot, episode, o, repo.now).result)
  {
    R.BothOrNeither(key, repo.slot, R.EpisodeOf(store.View(), key.bankCode), o, repo.now);
    if !R.ValidOwner(key, o) { return Some(R.InvalidOwner); }
    if repo.slot.None? { return Some(R.AttemptMissing); }
    var attempt := A.Parse(repo.slot.value).value;
    if attempt.attemptId != o.attemptId { return Some(R.IdentityMismatch); }
    var episode := store.FindByBankCode(key.bankCode);
    if !attempt.ActiveRecord? { return Some(R.OnTerminal(key, attempt, episode)); }
    if attempt.lease.None? || attempt.lease.value.token != o.token
        || attempt.generation != o.generation { return Some(R.StaleOwner); }
    if attempt.lease.value.expiresAt <= repo.now { return Some(R.LeaseExpired); }
    if episode.None? { return Some(R.EpisodeMissing); }
    if episode.value.id.runId != key.runId { return Some(R.IdentityMismatch); }
    if R.HasActiveOwner(episode.value, repo.now) { return Some(R.ActiveMutationOwner); }
    if episode.value.attempt != Some(ManualRecoveryRequired) && episode.value.attempt != Some(MutationStarted) {
      return Some(R.EpisodeNotResolvable);
    }
    r := None;
  }

  /** The body of the transaction: both rows locked, one `NOW()`, every look and then both updates. */
  method RestorationTransaction(repo: AttemptRepository, store: ExpiryStore, key: R.Key, o: A.Owner)
      returns (r: R.RestorationResult)
    requires repo.Valid() && store.Valid() && repo.now == store.now
    modifies repo, store
    ensures repo.Valid() && store.Valid() && R.Later(old(WorldOf(repo, store)), WorldOf(repo, store))
    ensures repo.now == old(repo.now)
    ensures r == R.Resolve(key, old(repo.slot), old(R.EpisodeOf(store.View(), key.bankCode)), o, repo.now).result
    ensures WorldOf(repo, store) == R.Coupled(key, old(WorldOf(repo, store)), o)
  {
    R.BothOrNeither(key, repo.slot, R.EpisodeOf(store.View(), key.bankCode), o, repo.now);
    R.CoupledExactly(key, WorldOf(repo, store), o);
    var refused := LookAtBoth(repo, store, key, o);
    if refused.Some? { return refused.value; }
    r := CommitRestoration(repo, store, key, o);
  }

  /** The two updates, each refusing to have lost its row. */
  method CommitRestoration(repo: AttemptRepository, store: ExpiryStore, key: R.Key, o: A.Owner)
      returns (r: R.RestorationResult)
    requires repo.Valid() && store.Valid() && repo.now == store.now
    requires R.Restorable(key, repo.slot, R.EpisodeOf(store.View(), key.bankCode), o, repo.now)
    modifies repo, store
    ensures repo.Valid() && store.Valid() && repo.now == old(repo.now)
    ensures repo.slot == A.Exec(A.CompleteAuthenticated(o), old(repo.slot), repo.now) && repo.slot.Some?
    ensures store.View() == S.OnObservedRestoration(old(store.View()), key.bankCode, key.runId)
    ensures A.Parse(repo.slot.value).Some? && A.Parse(repo.slot.value).value.AuthenticatedRecord?
    ensures r == R.Restored(R.EvidenceOf(A.Parse(repo.slot.value).value))
  {
    var authenticated := repo.Execute(A.CompleteAuthenticated(o));
    if authenticated.None? { return R.AttemptCasLost; }
    var resolved := store.ResolveObservedEpisode(key.bankCode, key.runId);
    if resolved != 1 { return R.EpisodeCasLost; }
    return R.Restored(R.EvidenceOf(authenticated.value));
  }

  /** Everybody else acts, and then the database reads one clock for both tables. */
  method BeginTransaction(repo: AttemptRepository, store: ExpiryStore, quiet: bool)
    requires repo.Valid() && store.Valid()
    modifies repo, store
    ensures repo.Valid() && store.Valid() && repo.now == store.now
    ensures R.Later(old(WorldOf(repo, store)), WorldOf(repo, store)) && old(repo.now) <= repo.now
    ensures quiet && old(repo.now) == old(store.now) ==>
              WorldOf(repo, store) == old(WorldOf(repo, store)) && repo.now == old(repo.now)
  {
    repo.Await(quiet);
    store.Await({}, quiet);
    ghost var before := store.View();
    if repo.now < store.now { repo.Elapse(store.now - repo.now); }
    store.Elapse(repo.now - store.now);
    P.LaterTransitive(old(store.View()), before, store.View());
  }

  /**
   * One retry on a serialization failure, of which the call meets `conflicts`; `None` is a throw, which may come after
   * the commit. A quiet call answers what the transaction specifies on the two stores as they are.
   */
  method ResolveObservedRestoration(repo: AttemptRepository, store: ExpiryStore, key: R.Key, o: A.Owner, conflicts: nat,
      quiet: bool)
    returns (r: Option<R.RestorationResult>)
    requires repo.Valid() && store.Valid()
    modifies repo, store
    ensures repo.Valid() && store.Valid()
    ensures R.Later(old(WorldOf(repo, store)), WorldOf(repo, store)) && old(repo.now) <= repo.now
    ensures r.Some? ==> R.Evidenced(r.value, WorldOf(repo, store), key, o)
    ensures conflicts >= 2 ==> r.None?
    ensures quiet && conflicts < 2 && old(repo.now) == old(store.now) ==>
              && r == Some(R.Resolve(key, old(repo.slot), old(R.EpisodeOf(store.View(), key.bankCode)), o,
                                     old(repo.now)).result)
              && WorldOf(repo, store) == R.Coupled(key, old(WorldOf(repo, store)), o) && repo.now == old(repo.now)
  {
    BeginTransaction(repo, store, quiet);
    if conflicts > 0 {
      ghost var first := WorldOf(repo, store);
      BeginTransaction(repo, store, quiet);
      A.EvolvesTransitive(old(repo.slot), first.slot, repo.slot);
      P.LaterTransitive(old(store.View()), first.state, store.View());
      if conflicts > 1 { return None; }
    }
    ghost var before := WorldOf(repo, store);
    var result := RestorationTransaction(repo, store, key, o);
    A.EvolvesTransitive(old(repo.slot), before.slot, repo.slot);
    P.LaterTransitive(old(store.View()), before.state, store.View());
    R.AnswersAreEvidenced(key, before, o);
    var replyLost := Fails(quiet);
    return if replyLost then None else Some(result);
  }
}
