// The one transaction that moves an authentication attempt and an expiry episode together, after the portal was
// observed to be logged in again; and every interleaving of it with all other updates of both.
module ObservedRestoration {
  import opened Wrappers
  import opened AttemptMachine
  import A = AttemptRow
  import opened ExpiryEpisodes
  import S = EpisodeSystem
  import P = EpisodeProofs

  datatype Key = Key(bankCode: string, runId: string)

  datatype Evidence = Evidence(attemptId: string, phase: Phase, terminalGeneration: int, authenticatedAt: int)

  /** `AttemptCasLost` and `EpisodeCasLost` are the two throws that roll the transaction back. */
  datatype RestorationResult =
    | Restored(evidence: Evidence)
    | RestoredEarlier(evidence: Evidence)
    | AttemptMissing | EpisodeMissing | IdentityMismatch | TerminalConflict | StaleOwner | LeaseExpired
    | ActiveMutationOwner | EpisodeNotResolvable
    | InvalidOwner | CorruptAttempt | AttemptCasLost | EpisodeCasLost

  datatype Outcome = Outcome(result: RestorationResult, slot: Option<A.Row>, episode: Option<Episode>)

  // ---- the transaction --------------------------------------------------------------------------------------

  predicate ValidOwner(key: Key, o: A.Owner) {
    Nonblank(key.bankCode) && Nonblank(key.runId) && Nonblank(o.attemptId) && Nonblank(o.token) && o.generation >= 0
  }

  function EvidenceOf(r: A.Record): Evidence
    requires r.AuthenticatedRecord?
  {
    Evidence(r.attemptId, r.phase, r.generation, r.terminalAt)
  }

  /** An attempt that is already terminal: the answer repeats the earlier evidence, or reports a conflict. */
  function OnTerminal(key: Key, record: A.Record, episode: Option<Episode>): RestorationResult {
    if !record.AuthenticatedRecord? then TerminalConflict
    else if episode.None? then RestoredEarlier(EvidenceOf(record))
    else if episode.value.id.runId != key.runId then IdentityMismatch
    else if episode.value.attempt == Some(Resolved) then RestoredEarlier(EvidenceOf(record))
    else TerminalConflict
  }

  /** The truthiness test on the episode's claim token, lease and lease liveness. */
  predicate HasActiveOwner(e: Episode, now: int) {
    e.attempt == Some(MutationStarted)
    && (e.claimToken.None? || e.claimToken.value == "" || e.lease.None? || e.lease.value > now)
  }

  /** The WHERE clause of the episode's UPDATE. */
  predicate EpisodeSelected(e: Episode, key: Key) {
    e.id.runId == key.runId && (e.attempt == Some(ManualRecoveryRequired) || e.attempt == Some(MutationStarted))
  }

  /** Both rows were locked and looked at; now both are updated, or the transaction throws and neither is. */
  function Commit(key: Key, slot: Option<A.Row>, e: Episode, o: A.Owner, now: int): Outcome {
    var statement := A.CompleteAuthenticated(o);
    var after := A.Exec(statement, slot, now);
    if !A.Applies(statement, slot, now) then Outcome(AttemptCasLost, slot, Some(e))
    else if !EpisodeSelected(e, key) then Outcome(EpisodeCasLost, slot, Some(e))
    else
      match A.Parse(after.value)
      case Some(record) =>
        if record.AuthenticatedRecord? then Outcome(Restored(EvidenceOf(record)), after, Some(ResolveObserved(e, now)))
        else Outcome(CorruptAttempt, slot, Some(e))
      case None => Outcome(CorruptAttempt, slot, Some(e))
  }

  /** `NOW()` is constant throughout the transaction, and both rows stay locked. */
  function Resolve(key: Key, slot: Option<A.Row>, episode: Option<Episode>, o: A.Owner, now: int): Outcome {
    var stay := (r: RestorationResult) => Outcome(r, slot, episode);
    if !ValidOwner(key, o) then stay(InvalidOwner)
    else if slot.None? then stay(AttemptMissing)
    else if A.Parse(slot.value).None? then stay(CorruptAttempt)
    else
      var record := A.Parse(slot.value).value;
      if record.attemptId != o.attemptId then stay(IdentityMismatch)
      else if !record.ActiveRecord? then stay(OnTerminal(key, record, episode))
      else if record.lease.None? || record.lease.value.token != o.token || record.generation != o.generation
      then stay(StaleOwner)
      else if record.lease.value.expiresAt <= now then stay(LeaseExpired)
      else if episode.None? then stay(EpisodeMissing)
      else if episode.value.id.runId != key.runId then stay(IdentityMismatch)
      else if HasActiveOwner(episode.value, now) then stay(ActiveMutationOwner)
      else if episode.value.attempt != Some(ManualRecoveryRequired) && episode.value.attempt != Some(MutationStarted)
      then stay(EpisodeNotResolvable)
      else Commit(key, slot, episode.value, o, now)
  }

  // ---- one call ---------------------------------------------------------------------------------------------

  /** What a successful restoration needs, without the transaction: ownership, the same run, and no live mutator. */
  predicate Restorable(key: Key, slot: Option<A.Row>, episode: Option<Episode>, o: A.Owner, now: int) {
    && ValidOwner(key, o)
    && slot.Some? && A.Owns(slot.value, o, now)
    && episode.Some? && episode.value.id.runId == key.runId && ObservedResolvable(episode.value, now)
  }

  /**
   * The attempt becomes authenticated and the episode resolved together or not at all, exactly when the caller owns
   * the attempt and the episode of the same run has no live mutator; and neither "CAS lost" throw is reachable.
   */
  lemma BothOrNeither(key: Key, slot: Option<A.Row>, episode: Option<Episode>, o: A.Owner, now: int)
    requires A.SoundSlot(slot)
    ensures var t := Resolve(key, slot, episode, o, now);
            && !t.result.AttemptCasLost? && !t.result.EpisodeCasLost? && !t.result.CorruptAttempt?
            && (t.result.Restored? <==> Restorable(key, slot, episode, o, now))
            && (t.result.Restored? ==>
                  && t.slot.Some? && t.slot.value.status == A.AuthenticatedStatus
                  && t.slot == A.Exec(A.CompleteAuthenticated(o), slot, now)
                  && t.episode == Some(ResolveObserved(episode.value, now)) && t.episode.value.attempt == Some(Resolved)
                  && t.result.evidence == Evidence(o.attemptId, slot.value.phase, o.generation + 1, now))
            && (!t.result.Restored? ==> t.slot == slot && t.episode == episode)
  {
    if slot.Some? {
      A.ParserMatchesConstraints(slot.value);
      A.ExecKeepsSound(A.CompleteAuthenticated(o), slot, now);
    }
  }

  /** The episode of the key's run, at the attempt states a restoration tells apart. */
  predicate OfRun(key: Key, episode: Option<Episode>) { episode.Some? && episode.value.id.runId == key.runId }

  /** A mutation that is running, or that has no lease to tell whether it is. */
  predicate MayStillMutate(e: Episode, now: int) {
    e.attempt == Some(MutationStarted) && (e.lease.None? || e.lease.value > now)
  }

  predicate NothingToResolve(e: Episode) {
    e.attempt.None? || e.attempt == Some(Reserved) || e.attempt == Some(Resolved)
  }

  /** Every answer about the attempt, exactly: what its record says of the owner. */
  lemma AttemptAnswersExactly(key: Key, slot: Option<A.Row>, episode: Option<Episode>, o: A.Owner, now: int)
    requires A.SoundSlot(slot)
    ensures var t, r := Resolve(key, slot, episode, o, now).result, A.RecordOf(slot);
            var mine := ValidOwner(key, o) && r.Some? && r.value.attemptId == o.attemptId;
            && (t.InvalidOwner? <==> !ValidOwner(key, o))
            && (t.AttemptMissing? <==> ValidOwner(key, o) && r.None?)
            && (t.StaleOwner? <==>
                  && mine && r.value.ActiveRecord?
                  && (r.value.lease.None? || r.value.lease.value.token != o.token
                      || r.value.generation != o.generation))
            && (t.LeaseExpired? <==>
                  && mine && A.LapsedRecord(r.value, o.attemptId, now)
                  && r.value.lease.value.token == o.token && r.value.generation == o.generation)
            && (t.RestoredEarlier? <==>
                  && mine && r.value.AuthenticatedRecord?
                  && (episode.None? || (OfRun(key, episode) && episode.value.attempt == Some(Resolved))))
            && (t.RestoredEarlier? ==> t.evidence == EvidenceOf(r.value))
            && (t.TerminalConflict? <==>
                  && mine && !r.value.ActiveRecord?
                  && (r.value.AuthenticatedRecord? ==>
                        OfRun(key, episode) && episode.value.attempt != Some(Resolved)))
  {
    if slot.Some? { A.ParserMatchesConstraints(slot.value); }
    BothOrNeither(key, slot, episode, o, now);
  }

  /**
   * Every answer about the episode, exactly, once the owner holds the attempt: missing, of another run, possibly still
   * mutating, with nothing to resolve - or restored.
   */
  lemma EpisodeAnswersExactly(key: Key, slot: Option<A.Row>, episode: Option<Episode>, o: A.Owner, now: int)
    requires A.SoundSlot(slot) && (episode.Some? ==> WellFormed(episode.value))
    ensures var t := Resolve(key, slot, episode, o, now).result;
            var held := ValidOwner(key, o) && A.Holds(slot, o, now);
            && (t.EpisodeMissing? <==> held && episode.None?)
            && (t.ActiveMutationOwner? <==> held && OfRun(key, episode) && MayStillMutate(episode.value, now))
            && (t.EpisodeNotResolvable? <==> held && OfRun(key, episode) && NothingToResolve(episode.value))
            && (t.Restored? <==>
                  && held && OfRun(key, episode)
                  && !MayStillMutate(episode.value, now) && !NothingToResolve(episode.value))
            && (held && episode.Some? && !OfRun(key, episode) ==> t.IdentityMismatch?)
  {
    if slot.Some? { A.ParserMatchesConstraints(slot.value); }
    BothOrNeither(key, slot, episode, o, now);
    assert A.Holds(slot, o, now) <==> slot.Some? && A.Owns(slot.value, o, now);
    if episode.Some? {
      var e := episode.value;
      assert HasActiveOwner(e, now) <==> MayStillMutate(e, now);
      assert e.attempt.Some? ==>
          var a := e.attempt.value; a.Reserved? || a.MutationStarted? || a.ManualRecoveryRequired? || a.Resolved?;
    }
  }

  /** A claim whose mutation is running, or that has no lease to tell whether it is, is never overruled. */
  lemma NeverOverrulesALiveMutator(key: Key, slot: Option<A.Row>, e: Episode, o: A.Owner, now: int)
    requires A.SoundSlot(slot) && e.attempt == Some(MutationStarted) && (e.lease.None? || e.lease.value > now)
    ensures var t := Resolve(key, slot, Some(e), o, now); !t.result.Restored? && t.slot == slot && t.episode == Some(e)
  {
  }

  /** Both machines' invariants survive, and both records only move forward. */
  lemma ResolveKeepsBoth(key: Key, slot: Option<A.Row>, episode: Option<Episode>, o: A.Owner, now: int)
    requires A.SoundSlot(slot) && (episode.Some? ==> WellFormed(episode.value))
    ensures var t := Resolve(key, slot, episode, o, now);
            && A.SoundSlot(t.slot) && A.Evolves(slot, t.slot)
            && t.episode.Some? == episode.Some?
            && (episode.Some? ==> WellFormed(t.episode.value) && EvolvesTo(episode.value, t.episode.value))
  {
    BothOrNeither(key, slot, episode, o, now);
    A.ExecKeepsSound(A.CompleteAuthenticated(o), slot, now);
    A.ExecEvolves(A.CompleteAuthenticated(o), slot, now);
    if episode.Some? {
      UncheckedUpdatesKeepWellFormed(episode.value, episode.value.id, now);
    }
  }

  // ---- every interleaving -----------------------------------------------------------------------------------

  /** One attempt row, all the episode stores, one clock. */
  datatype World = World(slot: Option<A.Row>, state: S.State)

  datatype Step =
    | OnAttempt(statement: A.Statement)
    | OnEpisodes(step: S.Step)
    | OnBoth(owner: A.Owner)

  function EpisodeOf(s: S.State, bankCode: string): Option<Episode> {
    if bankCode in s.episodes then Some(s.episodes[bankCode]) else None
  }

  /** The single atomic step of the transaction on the two stores. */
  function Coupled(key: Key, w: World, o: A.Owner): World {
    var t := Resolve(key, w.slot, EpisodeOf(w.state, key.bankCode), o, w.state.now);
    World(t.slot, if t.result.Restored? then S.OnObservedRestoration(w.state, key.bankCode, key.runId) else w.state)
  }

  function Next(key: Key, w: World, step: Step): World {
    match step
    case OnAttempt(s) => w.(slot := A.Exec(s, w.slot, w.state.now))
    case OnEpisodes(s) => w.(state := S.Next(w.state, s))
    case OnBoth(o) => Coupled(key, w, o)
  }

  function Run(key: Key, start: int, steps: seq<Step>): World {
    if steps == [] then World(None, S.Initial(start))
    else Next(key, Run(key, start, steps[..|steps| - 1]), steps[|steps| - 1])
  }

  ghost predicate Inv(w: World) { A.SoundSlot(w.slot) && S.Inv(w.state) }

  ghost predicate Later(w: World, u: World) { A.Evolves(w.slot, u.slot) && S.Later(w.state, u.state) }

  /** What an answer says about the two stores it leaves. */
  predicate Evidenced(r: RestorationResult, u: World, key: Key, o: A.Owner) {
    && (r.Restored? || r.RestoredEarlier? ==>
          && u.slot.Some? && u.slot.value.attemptId == o.attemptId && u.slot.value.status == A.AuthenticatedStatus
          && A.Parse(u.slot.value).Some? && A.Parse(u.slot.value).value.AuthenticatedRecord?
          && r.evidence == EvidenceOf(A.Parse(u.slot.value).value))
    && (r.Restored? ==>
          && r.evidence.terminalGeneration == o.generation + 1
          && EpisodeOf(u.state, key.bankCode).Some?
          && EpisodeOf(u.state, key.bankCode).value.id.runId == key.runId
          && EpisodeOf(u.state, key.bankCode).value.attempt == Some(Resolved))
    && !r.AttemptCasLost? && !r.EpisodeCasLost? && !r.CorruptAttempt?
  }

  lemma AnswersAreEvidenced(key: Key, w: World, o: A.Owner)
    requires Inv(w)
    ensures Evidenced(Resolve(key, w.slot, EpisodeOf(w.state, key.bankCode), o, w.state.now).result, Coupled(key, w,
              o), key, o)
  {
    var t := Resolve(key, w.slot, EpisodeOf(w.state, key.bankCode), o, w.state.now);
    BothOrNeither(key, w.slot, EpisodeOf(w.state, key.bankCode), o, w.state.now);
    if t.result.Restored? { RestoredLeaves(key, w, o); }
  }

  lemma StepKeeps(key: Key, w: World, step: Step)
    requires Inv(w)
    ensures Inv(Next(key, w, step)) && Later(w, Next(key, w, step))
  {
    P.BookkeepingKeeps(w.state, S.Elapse(0));
    match step
    case OnAttempt(s) =>
      A.ExecKeepsSound(s, w.slot, w.state.now);
      A.ExecEvolves(s, w.slot, w.state.now);
    case OnEpisodes(s) => P.StepKeepsInv(w.state, s);
    case OnBoth(o) =>
      var episode := EpisodeOf(w.state, key.bankCode);
      ResolveKeepsBoth(key, w.slot, episode, o, w.state.now);
      P.ObservedRestorationKeeps(w.state, key.bankCode, key.runId);
  }

  /** The transaction on the two stores: both updates where it may restore, and otherwise nothing. */
  lemma CoupledExactly(key: Key, w: World, o: A.Owner)
    requires Inv(w)
    ensures Coupled(key, w, o)
            == if Restorable(key, w.slot, EpisodeOf(w.state, key.bankCode), o, w.state.now)
               then World(A.Exec(A.CompleteAuthenticated(o), w.slot, w.state.now),
                          S.OnObservedRestoration(w.state, key.bankCode, key.runId))
               else w
    ensures Inv(Coupled(key, w, o)) && Later(w, Coupled(key, w, o))
  {
    BothOrNeither(key, w.slot, EpisodeOf(w.state, key.bankCode), o, w.state.now);
    StepKeeps(key, w, OnBoth(o));
  }

  lemma {:induction false} RunKeeps(key: Key, start: int, steps: seq<Step>, k: nat)
    requires k <= |steps|
    ensures Inv(Run(key, start, steps)) && Later(Run(key, start, steps[..k]), Run(key, start, steps))
    decreases |steps|
  {
    if steps == [] {
      P.BookkeepingKeeps(S.Initial(start), S.Elapse(0));
    } else {
      var before := steps[..|steps| - 1];
      var w := Run(key, start, before);
      RunKeeps(key, start, before, if k < |steps| then k else 0);
      StepKeeps(key, w, steps[|steps| - 1]);
      if k == |steps| {
        assert steps[..k] == steps;
        StepKeeps(key, Run(key, start, steps), OnEpisodes(S.Elapse(0)));
      } else {
        assert before[..k] == steps[..k];
        A.EvolvesTransitive(Run(key, start, steps[..k]).slot, w.slot, Run(key, start, steps).slot);
        P.LaterTransitive(Run(key, start, steps[..k]).state, w.state, Run(key, start, steps).state);
      }
    }
  }

  /** Asked again about an attempt that it authenticated, the resolver looks at the episode and writes nothing. */
  lemma AuthenticatedAnswers(key: Key, slot: Option<A.Row>, episode: Option<Episode>, o: A.Owner, now: int)
    requires slot.Some? && A.Parse(slot.value).Some? && A.Parse(slot.value).value.AuthenticatedRecord?
    requires ValidOwner(key, o) && slot.value.attemptId == o.attemptId
    ensures Resolve(key, slot, episode, o, now) == Outcome(OnTerminal(key, A.Parse(slot.value).value, episode), slot,
              episode)
  {
  }

  /** What a restoration leaves behind for the next one to find. */
  lemma RestoredLeaves(key: Key, w: World, o: A.Owner)
    requires Inv(w)
    requires Resolve(key, w.slot, EpisodeOf(w.state, key.bankCode), o, w.state.now).result.Restored?
    ensures var v := Coupled(key, w, o);
            && v.slot.Some? && v.slot.value.status == A.AuthenticatedStatus && v.slot.value.attemptId == o.attemptId
            && A.Parse(v.slot.value).Some? && A.Parse(v.slot.value).value.AuthenticatedRecord?
            && Restored(EvidenceOf(A.Parse(v.slot.value).value))
               == Resolve(key, w.slot, EpisodeOf(w.state, key.bankCode), o, w.state.now).result
            && key.bankCode in v.state.episodes
            && v.state.episodes[key.bankCode].id.runId == key.runId
            && v.state.episodes[key.bankCode].attempt == Some(Resolved)
  {
    BothOrNeither(key, w.slot, EpisodeOf(w.state, key.bankCode), o, w.state.now);
    A.ExecKeepsSound(A.CompleteAuthenticated(o), w.slot, w.state.now);
  }

  lemma RepeatAfter(key: Key, w: World, u: World, o: A.Owner)
    requires Inv(w) && Inv(Coupled(key, w, o)) && Inv(u) && Later(Coupled(key, w, o), u)
    requires Resolve(key, w.slot, EpisodeOf(w.state, key.bankCode), o, w.state.now).result.Restored?
    ensures var first := Resolve(key, w.slot, EpisodeOf(w.state, key.bankCode), o, w.state.now);
            var current := EpisodeOf(u.state, key.bankCode);
            var again := Resolve(key, u.slot, current, o, u.state.now);
            && again.slot == u.slot && again.episode == current
            && (again.result == RestoredEarlier(first.result.evidence) <==>
                  current.None? || current.value.id.runId == key.runId)
            && (current.Some? && current.value.id.runId != key.runId ==> again.result == IdentityMismatch)
  {
    RestoredLeaves(key, w, o);
    var v := Coupled(key, w, o);
    RestoredStays(key, v.state, u.state);
    assert u.slot == v.slot;
    BothOrNeither(key, w.slot, EpisodeOf(w.state, key.bankCode), o, w.state.now);
    AuthenticatedAnswers(key, u.slot, EpisodeOf(u.state, key.bankCode), o, u.state.now);
  }

  /**
   * Repeating a restoration, at any later time of any history, answers with the same evidence and changes nothing -
   * exactly until the bank has an episode of another run.
   */
  lemma RepeatGivesTheSameEvidence(key: Key, start: int, steps: seq<Step>, k: nat, o: A.Owner)
    requires k < |steps| && steps[k] == OnBoth(o)
    requires var w := Run(key, start, steps[..k]);
             Resolve(key, w.slot, EpisodeOf(w.state, key.bankCode), o, w.state.now).result.Restored?
    ensures var w, u := Run(key, start, steps[..k]), Run(key, start, steps);
            var first := Resolve(key, w.slot, EpisodeOf(w.state, key.bankCode), o, w.state.now);
            var current := EpisodeOf(u.state, key.bankCode);
            var again := Resolve(key, u.slot, current, o, u.state.now);
            && again.slot == u.slot && again.episode == current
            && (again.result == RestoredEarlier(first.result.evidence) <==>
                  current.None? || current.value.id.runId == key.runId)
            && (current.Some? && current.value.id.runId != key.runId ==> again.result == IdentityMismatch)
  {
    RunKeeps(key, start, steps[..k], 0);
    RunKeeps(key, start, steps[..k + 1], 0);
    RunKeeps(key, start, steps, k + 1);
    assert steps[..k + 1][..k] == steps[..k];
    RepeatAfter(key, Run(key, start, steps[..k]), Run(key, start, steps), o);
  }

  /** The resolved episode of this run is found resolved, or not found, for ever. */
  lemma RestoredStays(key: Key, s: S.State, t: S.State)
    requires S.Inv(s) && S.Inv(t) && S.Later(s, t)
    requires key.bankCode in s.episodes && s.episodes[key.bankCode].id.runId == key.runId
    requires s.episodes[key.bankCode].attempt == Some(Resolved)
    ensures key.bankCode in t.episodes && t.episodes[key.bankCode].id.runId == key.runId ==>
              t.episodes[key.bankCode].attempt == Some(Resolved)
  {
  }
}
