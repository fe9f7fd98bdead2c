// What the session coordinator makes of the answers it gets: a pure machine that hears one reply at a time, whatever
// the reply and whoever gave it. The coordinator itself, which asks and acts, follows this machine step by step.
module CoordinatorReplies {
  import opened Wrappers
  import opened AttemptMachine
  import A = AttemptRow
  import opened AuthorityHandle
  import R = ObservedRestoration

  datatype Probe = ProbeAuthenticated | ProbeUnauthenticated | ProbeUnavailable

  datatype SessionSource = ExistingRow | ObservedSession

  datatype RetryReason = SessionProbeUnavailable | OwnershipChanged | StateChanged

  datatype Review = FromAttempt(reason: OperatorReason) | IdentityConflictReview | RestorationStateConflict

  datatype SessionState =
    | SessionAuthenticated(source: SessionSource)
    | AuthenticationRequired(authority: Authority)
    | LeaseInProgress | MutationInProgress
    | RetryLater(reason: RetryReason)
    | NeedsOperatorAction(review: Review)
    | SessionCancelled | InvalidRequest

  datatype Completion = AttemptOnly | ExpiryRestoration

  /** `NoReply` is also any answer that is not well-formed, or that does not belong to the question. */
  datatype Reply =
    | NoReply
    | Read(found: Option<A.Record>)
    | Probed(probe: Probe) | Aborted
    | Created(record: A.Record) | Conflict
    | LeaseTaken(owner: A.Owner) | LeaseTakenByOther | LeaseIsHeld | LeaseIsTerminal(record: A.Record)
    | LeaseUnavailable | LeaseLapsed
    | LeaseReleased(record: A.Record) | ReleaseTerminal(record: A.Record) | LeaseStillActive | ReleaseRefused
    | AttemptCompleted(record: A.Record) | AttemptNotCompleted
    | RestorationAnswered(result: R.RestorationResult)

  /** What the coordinator is waiting for, or has concluded. */
  datatype Stage =
    | Reading | ProbingFirst | Creating
    | Probing | Leasing | Reconciling | Finding | Completing(owner: A.Owner)
    | Answered(state: SessionState) | MustMint

  /** The replies heard so far and what they led to; `passes` counts how often the loop was entered. */
  datatype Conversation = Conversation(stage: Stage, replies: seq<Reply>, passes: nat)

  const BEGIN := Conversation(Reading, [], 0)

  predicate Final(s: Stage) { s.Answered? || s.MustMint? }

  // ---- one reply --------------------------------------------------------------------------------------------

  /** What a record that is already terminal decides on its own. */
  function Terminal(record: A.Record): Option<SessionState> {
    match record
    case ActiveRecord(_, _, _, _, _) => None
    case AuthenticatedRecord(_, _, _, _, _) => Some(SessionAuthenticated(ExistingRow))
    case FailedRecord(_, _, _, _, f, _) => Some(NeedsOperatorAction(FromAttempt(f.operatorReason)))
  }

  /** A terminal record answers; an active one leaves the coordinator at `otherwise`. */
  function TerminalOr(record: A.Record, otherwise: Stage): Stage {
    match Terminal(record) case Some(state) => Answered(state) case None => otherwise
  }

  const RETRY := Answered(RetryLater(StateChanged))

  function OnRead(r: Reply): Stage {
    match r
    case Read(None) => ProbingFirst
    case Read(Some(record)) =>
      TerminalOr(record, if record.ActiveRecord? && record.lease.Some? then Leasing else Probing)
    case _ => RETRY
  }

  function OnProbe(r: Reply, authenticated: Stage): Stage {
    match r
    case Aborted => Answered(SessionCancelled)
    case Probed(ProbeAuthenticated) => authenticated
    case Probed(ProbeUnauthenticated) => MustMint
    case _ => Answered(RetryLater(SessionProbeUnavailable))
  }

  function OnCreate(r: Reply): Stage {
    match r
    case Created(record) => TerminalOr(record, Leasing)
    case Conflict => Answered(NeedsOperatorAction(IdentityConflictReview))
    case _ => RETRY
  }

  function OnLease(r: Reply, reconciled: bool): Stage {
    match r
    case LeaseTaken(owner) => Completing(owner)
    case LeaseTakenByOther => Answered(RetryLater(OwnershipChanged))
    case LeaseIsHeld => Answered(LeaseInProgress)
    case LeaseIsTerminal(record) => TerminalOr(record, RETRY)
    case LeaseUnavailable => Finding
    case LeaseLapsed => if reconciled then RETRY else Reconciling
    case _ => RETRY
  }

  function OnReconcile(r: Reply): Stage {
    match r
    case LeaseReleased(record) => TerminalOr(record, Probing)
    case ReleaseTerminal(record) => TerminalOr(record, RETRY)
    case LeaseStillActive => Answered(LeaseInProgress)
    case ReleaseRefused => Finding
    case _ => RETRY
  }

  function OnFind(r: Reply): Stage {
    match r case Read(Some(record)) => TerminalOr(record, RETRY) case _ => RETRY
  }

  predicate ConfirmsCompletion(record: A.Record, o: A.Owner) {
    record.AuthenticatedRecord? && record.attemptId == o.attemptId && record.generation == o.generation + 1
  }

  predicate BoundEvidence(e: R.Evidence, o: A.Owner) {
    e.attemptId == o.attemptId && e.terminalGeneration == o.generation + 1
  }

  function OnCompletion(c: Completion, r: Reply, o: A.Owner): SessionState {
    if c == AttemptOnly then
      if r.AttemptCompleted? && ConfirmsCompletion(r.record, o) then SessionAuthenticated(ObservedSession)
      else RetryLater(OwnershipChanged)
    else if !r.RestorationAnswered? then NeedsOperatorAction(RestorationStateConflict)
    else
      match r.result
      case Restored(e) =>
        if BoundEvidence(e, o) then SessionAuthenticated(ObservedSession)
        else NeedsOperatorAction(RestorationStateConflict)
      case RestoredEarlier(e) =>
        if BoundEvidence(e, o) then SessionAuthenticated(ObservedSession)
        else NeedsOperatorAction(RestorationStateConflict)
      case ActiveMutationOwner => MutationInProgress
      case StaleOwner => RetryLater(OwnershipChanged)
      case LeaseExpired => RetryLater(OwnershipChanged)
      case _ => NeedsOperatorAction(RestorationStateConflict)
  }

  function OnReply(c: Completion, s: Stage, passes: nat, r: Reply): Stage {
    match s
    case Reading => OnRead(r)
    case ProbingFirst => OnProbe(r, Creating)
    case Creating => OnCreate(r)
    case Probing => OnProbe(r, Leasing)
    case Leasing => OnLease(r, passes > 1)
    case Reconciling => OnReconcile(r)
    case Finding => OnFind(r)
    case Completing(o) => Answered(OnCompletion(c, r, o))
    case _ => s
  }

  predicate EntersPass(from: Stage, to: Stage) { (to.Probing? || to.Leasing?) && !from.Probing? }

  /** Nothing is heard any more once the coordinator has answered, or has gone to the mint. */
  function Heard(c: Completion, v: Conversation, r: Reply): Conversation {
    if Final(v.stage) then v
    else
      var next := OnReply(c, v.stage, v.passes, r);
      Conversation(next, v.replies + [r], v.passes + if EntersPass(v.stage, next) then 1 else 0)
  }

  // ---- any replies at all -----------------------------------------------------------------------------------

  function Converse(c: Completion, replies: seq<Reply>): Conversation {
    if replies == [] then BEGIN else Heard(c, Converse(c, replies[..|replies| - 1]), replies[|replies| - 1])
  }

  /** A conversation that came about by hearing replies. */
  predicate Follows(c: Completion, v: Conversation) { v == Converse(c, v.replies) }

  lemma HeardFollows(c: Completion, v: Conversation, r: Reply)
    requires Follows(c, v) && !Final(v.stage)
    ensures Follows(c, Heard(c, v, r))
  {
    assert (v.replies + [r])[..|v.replies|] == v.replies;
  }

  /** How many replies a stage can be away from the first, at most. */
  function Depth(s: Stage, passes: nat): nat {
    match s
    case Reading => 0
    case ProbingFirst => 1
    case Creating => 2
    case Probing => if passes <= 1 then 1 else 5
    case Leasing => if passes <= 1 then 3 else 6
    case Reconciling => 4
    case Finding => if passes <= 1 then 5 else 7
    case Completing(_) => if passes <= 1 then 4 else 7
    case _ => 8
  }

  predicate Bounded(v: Conversation) {
    && |v.replies| <= Depth(v.stage, v.passes) && v.passes <= 2
    && (v.stage.Reading? || v.stage.ProbingFirst? || v.stage.Creating? <==> v.passes == 0 && !Final(v.stage))
    && (v.stage.Reconciling? ==> v.passes == 1)
  }

  lemma HeardBounded(c: Completion, v: Conversation, r: Reply)
    requires Bounded(v)
    ensures Bounded(Heard(c, v, r))
  {
  }

  lemma {:induction false} ConverseKeeps(c: Completion, replies: seq<Reply>)
    ensures Bounded(Converse(c, replies))
  {
    if replies != [] {
      ConverseKeeps(c, replies[..|replies| - 1]);
      HeardBounded(c, Converse(c, replies[..|replies| - 1]), replies[|replies| - 1]);
    }
  }

  lemma {:induction false} HearsUntilFinal(c: Completion, replies: seq<Reply>)
    ensures Final(Converse(c, replies).stage) || Converse(c, replies).replies == replies
  {
    if replies != [] {
      HearsUntilFinal(c, replies[..|replies| - 1]);
      assert replies == replies[..|replies| - 1] + [replies[|replies| - 1]];
    }
  }

  /** Whatever is answered, the coordinator is done after at most eight replies and two passes. */
  lemma AlwaysConcludes(c: Completion, replies: seq<Reply>)
    ensures Converse(c, replies).passes <= 2 && |Converse(c, replies).replies| <= 8
    ensures |replies| >= 8 ==> Final(Converse(c, replies).stage)
  {
    ConverseKeeps(c, replies);
    HearsUntilFinal(c, replies);
  }

  // ---- what the replies say ---------------------------------------------------------------------------------

  /** A reply that answers the question; any other is no better than none. */
  predicate Fits(s: Stage, r: Reply) {
    r.NoReply? ||
    match s
    case Reading => r.Read?
    case ProbingFirst => r.Probed? || r.Aborted?
    case Creating => r.Created? || r.Conflict?
    case Probing => r.Probed? || r.Aborted?
    case Leasing =>
      r.LeaseTaken? || r.LeaseTakenByOther? || r.LeaseIsHeld? || r.LeaseIsTerminal? || r.LeaseUnavailable?
      || r.LeaseLapsed?
    case Reconciling => r.LeaseReleased? || r.ReleaseTerminal? || r.LeaseStillActive? || r.ReleaseRefused?
    case Finding => r.Read?
    case Completing(_) => r.AttemptCompleted? || r.AttemptNotCompleted? || r.RestorationAnswered?
    case _ => false
  }

  lemma UnfittingIsNoReply(c: Completion, s: Stage, passes: nat, r: Reply)
    requires !Final(s) && !Fits(s, r)
    ensures OnReply(c, s, passes, r) == OnReply(c, s, passes, NoReply)
  {
  }

  /** The row a reply shows, if it shows one. */
  function Shown(r: Reply): Option<A.Record> {
    match r
    case Read(found) => found
    case Created(record) => Some(record)
    case LeaseIsTerminal(record) => Some(record)
    case LeaseReleased(record) => Some(record)
    case ReleaseTerminal(record) => Some(record)
    case _ => None
  }

  predicate ShowsFree(r: Reply) {
    Shown(r).Some? && Shown(r).value.ActiveRecord? && Shown(r).value.lease.None?
  }

  predicate ShowsActive(r: Reply) { Shown(r).Some? && Shown(r).value.ActiveRecord? }

  /** The first read found the row owned, whether or not its lease has run out. */
  predicate FirstReadOwned(replies: seq<Reply>) {
    replies != [] && replies[0].Read? && ShowsActive(replies[0]) && !ShowsFree(replies[0])
  }

  /** Observed: a probe said "authenticated" - or the first read was owned, and no lease has been found lapsed. */
  predicate ProbeAgrees(replies: seq<Reply>) {
    Probed(ProbeAuthenticated) in replies <==> !(FirstReadOwned(replies) && LeaseLapsed !in replies)
  }

  /** Where the coordinator is, read off the replies alone. */
  predicate ReadOff(v: Conversation) {
    var n := |v.replies|;
    match v.stage
    case Reading => v.replies == []
    case ProbingFirst => v.replies == [Read(None)]
    case Creating => v.replies == [Read(None), Probed(ProbeAuthenticated)]
    case Probing =>
      if v.passes == 1 then n == 1 && v.replies[0].Read? && ShowsFree(v.replies[0])
      else n > 1 && LeaseLapsed in v.replies && v.replies[n - 1].LeaseReleased? && ShowsActive(v.replies[n - 1])
    case Leasing =>
      && n > 0 && (v.passes == 1 <==> LeaseLapsed !in v.replies) && ProbeAgrees(v.replies)
      && (|| (n == 1 && FirstReadOwned(v.replies))
          || (v.replies[n - 1].Created? && ShowsActive(v.replies[n - 1]))
          || (n > 1 && v.replies[n - 1] == Probed(ProbeAuthenticated)
              && v.replies != [Read(None), Probed(ProbeAuthenticated)]))
    case Reconciling => n > 0 && v.replies[n - 1] == LeaseLapsed
    case Finding => n > 0 && v.replies[n - 1] in {LeaseUnavailable, ReleaseRefused}
    case Completing(o) => n > 0 && v.replies[n - 1] == LeaseTaken(o) && ProbeAgrees(v.replies)
    case _ => true
  }

  lemma HeardReadsOff(c: Completion, v: Conversation, r: Reply)
    requires Bounded(v) && ReadOff(v)
    ensures ReadOff(Heard(c, v, r))
  {
  }

  lemma {:induction false} ConverseReadsOff(c: Completion, replies: seq<Reply>)
    ensures Bounded(Converse(c, replies)) && ReadOff(Converse(c, replies))
  {
    ConverseKeeps(c, replies);
    if replies != [] {
      ConverseKeeps(c, replies[..|replies| - 1]);
      ConverseReadsOff(c, replies[..|replies| - 1]);
      HeardReadsOff(c, Converse(c, replies[..|replies| - 1]), replies[|replies| - 1]);
    }
  }

  /** What is asked after `r` was heard, in terms of all the replies so far. */
  predicate AskedBy(next: Stage, before: seq<Reply>, r: Reply) {
    var heard := before + [r];
    && (next.ProbingFirst? <==> heard == [Read(None)])
    && (next.Creating? <==> heard == [Read(None), Probed(ProbeAuthenticated)])
    && (next.Probing? <==> (before == [] && ShowsFree(r)) || (r.LeaseReleased? && ShowsActive(r)))
    && (next.Leasing? <==>
          || (before == [] && FirstReadOwned(heard))
          || (r.Created? && ShowsActive(r))
          || (r == Probed(ProbeAuthenticated) && before != [Read(None)]))
    && (next.Reconciling? <==> r == LeaseLapsed && LeaseLapsed !in before)
    && (next.Finding? <==> r in {LeaseUnavailable, ReleaseRefused})
    && (if r.LeaseTaken? then next == Completing(r.owner) else !next.Completing?)
    && (next.MustMint? <==> r == Probed(ProbeUnauthenticated))
  }

  lemma AskedFrom(c: Completion, v: Conversation, r: Reply)
    requires Bounded(v) && ReadOff(v) && !Final(v.stage) && Fits(v.stage, r)
    ensures AskedBy(OnReply(c, v.stage, v.passes, r), v.replies, r)
  {
    var heard := v.replies + [r];
    assert heard[|v.replies|] == r && (v.replies != [] ==> heard[0] == v.replies[0]);
    assert heard == [Read(None)] <==> v.replies == [] && r == Read(None);
    assert heard == [Read(None), Probed(ProbeAuthenticated)] <==>
        v.replies == [Read(None)] && r == Probed(ProbeAuthenticated) by {
      if heard == [Read(None), Probed(ProbeAuthenticated)] { assert v.replies == heard[..1]; }
    }
  }

  /**
   * What is asked next, exactly, in terms of the replies: the first probe for a row that is missing, its creation once
   * that probe said "authenticated", a probe for a row that was read free or has just been released, a reconciliation
   * for the first lapsed lease and for no later one, a last look after a refusal.
   */
  lemma AskedExactly(c: Completion, v: Conversation, r: Reply)
    requires Follows(c, v) && !Final(v.stage) && Fits(v.stage, r)
    ensures AskedBy(Heard(c, v, r).stage, v.replies, r)
  {
    ConverseReadsOff(c, v.replies);
    AskedFrom(c, v, r);
  }

  /** A completion that makes the session durable: of this very lease, and evidenced. */
  predicate Confirming(c: Completion, r: Reply, o: A.Owner) {
    match c
    case AttemptOnly =>
      && r.AttemptCompleted? && r.record.AuthenticatedRecord?
      && r.record.attemptId == o.attemptId && r.record.generation == o.generation + 1
    case ExpiryRestoration =>
      && r.RestorationAnswered? && (r.result.Restored? || r.result.RestoredEarlier?)
      && r.result.evidence.attemptId == o.attemptId && r.result.evidence.terminalGeneration == o.generation + 1
  }

  /** The verdicts that the last reply alone decides. */
  predicate DecidedBy(s: Stage, probing: bool, r: Reply) {
    && (s == Answered(SessionCancelled) <==> r == Aborted)
    && (s == Answered(LeaseInProgress) <==> r in {LeaseIsHeld, LeaseStillActive})
    && (s == Answered(NeedsOperatorAction(IdentityConflictReview)) <==> r == Conflict)
    && (s == Answered(SessionAuthenticated(ExistingRow)) <==>
          Shown(r).Some? && Shown(r).value.AuthenticatedRecord?)
    && (forall reason :: s == Answered(NeedsOperatorAction(FromAttempt(reason))) <==>
          Shown(r).Some? && Shown(r).value.FailedRecord? && Shown(r).value.failure.operatorReason == reason)
    && (s == Answered(RetryLater(SessionProbeUnavailable)) <==>
          r == Probed(ProbeUnavailable) || (probing && r == NoReply))
    && (s.Answered? ==> s.state != InvalidRequest && !s.state.AuthenticationRequired?)
  }

  /** The verdicts on a completion, which also look at the lease that was to be completed. */
  predicate CompletedBy(c: Completion, s: Stage, lease: Option<A.Owner>, r: Reply) {
    && (s == Answered(SessionAuthenticated(ObservedSession)) <==> lease.Some? && Confirming(c, r, lease.value))
    && (s == Answered(MutationInProgress) <==>
          lease.Some? && c == ExpiryRestoration && r == RestorationAnswered(R.ActiveMutationOwner))
    && (s == Answered(RetryLater(OwnershipChanged)) <==>
          || r == LeaseTakenByOther
          || (lease.Some? && c == AttemptOnly && !Confirming(c, r, lease.value))
          || (lease.Some? && c == ExpiryRestoration
              && r in {RestorationAnswered(R.StaleOwner), RestorationAnswered(R.LeaseExpired)}))
    && (s == Answered(NeedsOperatorAction(RestorationStateConflict)) <==>
          && lease.Some? && c == ExpiryRestoration && !Confirming(c, r, lease.value)
          && r !in {RestorationAnswered(R.ActiveMutationOwner), RestorationAnswered(R.StaleOwner),
                    RestorationAnswered(R.LeaseExpired)})
  }

  /** The lease the coordinator has just been given, by the replies. */
  function LeaseOf(replies: seq<Reply>): Option<A.Owner> {
    if replies != [] && replies[|replies| - 1].LeaseTaken? then Some(replies[|replies| - 1].owner) else None
  }

  lemma DecidedFrom(c: Completion, v: Conversation, r: Reply)
    requires !Final(v.stage) && Fits(v.stage, r)
    ensures DecidedBy(OnReply(c, v.stage, v.passes, r), v.stage.ProbingFirst? || v.stage.Probing?, r)
  {
  }

  lemma CompletedFrom(c: Completion, v: Conversation, r: Reply)
    requires ReadOff(v) && !Final(v.stage) && Fits(v.stage, r)
    ensures CompletedBy(c, OnReply(c, v.stage, v.passes, r), LeaseOf(v.replies), r)
  {
    assert v.stage.Completing? ==> LeaseOf(v.replies) == Some(v.stage.owner);
    assert !v.stage.Completing? ==> LeaseOf(v.replies).None?;
  }

  /**
   * Every verdict, exactly, in terms of the last reply - and for a completion, of the lease it completes. What is not
   * listed is "retry later, the state changed".
   */
  lemma AnsweredExactly(c: Completion, v: Conversation, r: Reply)
    requires Follows(c, v) && !Final(v.stage) && Fits(v.stage, r)
    ensures DecidedBy(Heard(c, v, r).stage, v.stage.ProbingFirst? || v.stage.Probing?, r)
    ensures CompletedBy(c, Heard(c, v, r).stage, LeaseOf(v.replies), r)
  {
    ConverseReadsOff(c, v.replies);
    DecidedFrom(c, v, r);
    CompletedFrom(c, v, r);
  }

  lemma {:induction false} ObservedAgrees(c: Completion, replies: seq<Reply>)
    requires Converse(c, replies).stage == Answered(SessionAuthenticated(ObservedSession))
    ensures ProbeAgrees(Converse(c, replies).replies)
  {
    var before, last := replies[..|replies| - 1], replies[|replies| - 1];
    var v := Converse(c, before);
    if Final(v.stage) {
      ObservedAgrees(c, before);
    } else {
      ConverseReadsOff(c, before);
      if !Fits(v.stage, last) { UnfittingIsNoReply(c, v.stage, v.passes, last); }
    }
  }

  /**
   * When a session that is reported as observed was observed, over every sequence of replies: a probe said
   * "authenticated", if and only if it is not the case that the row as it was first read was owned and no lease was
   * found lapsed.
   */
  lemma ObservedExactly(c: Completion, replies: seq<Reply>)
    requires Converse(c, replies).stage == Answered(SessionAuthenticated(ObservedSession))
    ensures var heard := Converse(c, replies).replies;
            heard != [] &&
            (Probed(ProbeAuthenticated) in heard <==>
              !(&& heard[0].Read? && heard[0].found.Some? && heard[0].found.value.ActiveRecord?
                && heard[0].found.value.lease.Some? && LeaseLapsed !in heard))
  {
    ObservedAgrees(c, replies);
  }

  /** An owned row is leased without a probe, and a completion of that very lease is reported as observed. */
  lemma OwnedRowIsNotProbed(read: A.Record, o: A.Owner, completed: A.Record)
    requires read.ActiveRecord? && read.lease.Some? && ConfirmsCompletion(completed, o)
    ensures var v := Converse(AttemptOnly, [Read(Some(read)), LeaseTaken(o), AttemptCompleted(completed)]);
            v.stage == Answered(SessionAuthenticated(ObservedSession)) && |v.replies| == 3
  {
    var replies := [Read(Some(read)), LeaseTaken(o), AttemptCompleted(completed)];
    var first := Heard(AttemptOnly, BEGIN, replies[0]);
    assert first.stage == Leasing && first.passes == 1;
    var second := Heard(AttemptOnly, first, replies[1]);
    assert second.stage == Completing(o) && second.passes == 1;
    assert replies[..2] == [Read(Some(read)), LeaseTaken(o)];
    assert replies[..2][..1] == [Read(Some(read))];
    assert replies[..2][..1][..0] == [];
    assert Converse(AttemptOnly, replies[..2][..1]) == first;
    assert Converse(AttemptOnly, replies[..2]) == second;
    assert Converse(AttemptOnly, replies) == Heard(AttemptOnly, second, replies[2]);
  }

  /** The rows of a retry handed back between the first read and the lease, and what the repository reads in them. */
  lemma HandedBack(id: string, first: string, second: string, ms: int)
    requires Nonblank(id) && Nonblank(first) && Nonblank(second) && ms > 0
    ensures var read := A.Exec(A.Acquire(id, first, ms), A.Exec(A.Insert(id), None, 0), 0);
            var leased := A.Exec(A.Acquire(id, second, ms), A.Exec(A.ClaimRetry(A.Owner(id, first, 1)), read, 0), 0);
            var completed := A.Exec(A.CompleteAuthenticated(A.Owner(id, second, 3)), leased, 0);
            && read.Some? && A.Owns(read.value, A.Owner(id, first, 1), 0)
            && leased.Some? && A.Owns(leased.value, A.Owner(id, second, 3), 0)
            && completed.Some? && completed.value.phase == NoInteraction
            && A.Parse(read.value).Some? && A.Parse(read.value).value.ActiveRecord?
            && A.Parse(read.value).value.lease.Some?
            && A.Parse(completed.value).Some?
            && ConfirmsCompletion(A.Parse(completed.value).value, A.Owner(id, second, 3))
  {
  }

  /**
   * The window is real. The coordinator reads a row that `first` owns, so it does not probe; `first` gives the row
   * back; the coordinator leases it and completes it. The rows are the ones the statements leave, the replies what the
   * repository says about them, and the coordinator answers "observed" with no probe asked for and no page touched.
   */
  lemma SkippedProbeWindow(id: string, first: string, second: string, ms: int)
    requires Nonblank(id) && Nonblank(first) && Nonblank(second) && ms > 0
    ensures var read := A.Exec(A.Acquire(id, first, ms), A.Exec(A.Insert(id), None, 0), 0);
            var leased := A.Exec(A.Acquire(id, second, ms), A.Exec(A.ClaimRetry(A.Owner(id, first, 1)), read, 0), 0);
            var completed := A.Exec(A.CompleteAuthenticated(A.Owner(id, second, 3)), leased, 0);
            && read.Some? && completed.Some? && A.Parse(completed.value).Some?
            && leased.Some? && A.Owns(leased.value, A.Owner(id, second, 3), 0)
            && completed.value.phase == NoInteraction
            && var v := Converse(AttemptOnly, [Read(A.Parse(read.value)), LeaseTaken(A.Owner(id, second, 3)),
                                               AttemptCompleted(A.Parse(completed.value).value)]);
            v.stage == Answered(SessionAuthenticated(ObservedSession)) && |v.replies| == 3
  {
    HandedBack(id, first, second, ms);
    var read := A.Exec(A.Acquire(id, first, ms), A.Exec(A.Insert(id), None, 0), 0);
    var leased := A.Exec(A.Acquire(id, second, ms), A.Exec(A.ClaimRetry(A.Owner(id, first, 1)), read, 0), 0);
    var completed := A.Exec(A.CompleteAuthenticated(A.Owner(id, second, 3)), leased, 0);
    OwnedRowIsNotProbed(A.Parse(read.value).value, A.Owner(id, second, 3), A.Parse(completed.value).value);
  }
}
