// The durable authentication-attempt row: its columns, its parser and the SQL statements that change it.
//
// One (bankCode, runId) slot of the table is modelled; every statement names that pair in its WHERE clause and
// the table is unique on it. Each statement is one atomic step against the database clock.
module AttemptRow {
  import opened Wrappers
  import opened AttemptMachine

  datatype Status = ActiveStatus | AuthenticatedStatus | FailedStatus

  /** The raw columns, each nullable on its own as in the table. Times are milliseconds of the database clock. */
  datatype Row = Row(
    attemptId: string,
    status: Status,
    phase: Phase,
    failureClass: Option<FailureClass>,
    operatorReason: Option<OperatorReason>,
    retryCount: int,
    ownerToken: Option<string>,
    generation: int,
    leaseExpiresAt: Option<int>,
    terminalAt: Option<int>)

  datatype Lease = Lease(token: string, expiresAt: int)

  /** A row that passed the parser: the impossible column combinations are gone. */
  datatype Record =
    | ActiveRecord(attemptId: string, phase: Phase, retryCount: int, generation: int, lease: Option<Lease>)
    | AuthenticatedRecord(attemptId: string, phase: Phase, retryCount: int, generation: int, terminalAt: int)
    | FailedRecord(attemptId: string, phase: Phase, retryCount: int, generation: int, failure: FailurePair,
        terminalAt: int)

  datatype Owner = Owner(attemptId: string, token: string, generation: int)

  datatype Statement =
    | Insert(attemptId: string)
    | Acquire(attemptId: string, token: string, leaseMs: int)
    | Renew(owner: Owner, leaseMs: int)
    | BeginCredentials(owner: Owner, leaseMs: int)
    | RecordBarrier(owner: Owner, leaseMs: int)
    | ClaimRetry(owner: Owner)
    | ExhaustRetries(owner: Owner)
    | CompleteAuthenticated(owner: Owner)
    | CompleteFailed(owner: Owner, failure: FailurePair)
    | ReconcileForRetry(attemptId: string)
    | ReconcileAsFailed(attemptId: string)

  // ---- parser and table constraints -------------------------------------------------------------------------

  function ParseFailurePair(c: Option<FailureClass>, r: Option<OperatorReason>): Option<FailurePair> {
    if c.Some? && r.Some? && PermittedPair(FailurePair(c.value, r.value))
    then Some(FailurePair(c.value, r.value)) else None
  }

  function Parse(row: Row): Option<Record> {
    if !Nonblank(row.attemptId) || row.retryCount < 0 || row.retryCount > 2 || row.generation < 0 then None
    else if row.status == ActiveStatus && row.failureClass.None? && row.operatorReason.None? && row.terminalAt.None?
            && row.ownerToken.None? && row.leaseExpiresAt.None?
    then Some(ActiveRecord(row.attemptId, row.phase, row.retryCount, row.generation, None))
    else if row.status == ActiveStatus && row.failureClass.None? && row.operatorReason.None? && row.terminalAt.None?
            && row.ownerToken.Some? && Nonblank(row.ownerToken.value) && row.leaseExpiresAt.Some?
    then Some(ActiveRecord(row.attemptId, row.phase, row.retryCount, row.generation,
                           Some(Lease(row.ownerToken.value, row.leaseExpiresAt.value))))
    else if row.status == AuthenticatedStatus && row.ownerToken.None? && row.leaseExpiresAt.None?
            && row.failureClass.None? && row.operatorReason.None? && row.terminalAt.Some?
    then Some(AuthenticatedRecord(row.attemptId, row.phase, row.retryCount, row.generation, row.terminalAt.value))
    else if row.status == FailedStatus && row.ownerToken.None? && row.leaseExpiresAt.None?
            && ParseFailurePair(row.failureClass, row.operatorReason).Some? && row.terminalAt.Some?
    then Some(FailedRecord(row.attemptId, row.phase, row.retryCount, row.generation,
                           ParseFailurePair(row.failureClass, row.operatorReason).value, row.terminalAt.value))
    else None
  }

  /** The table's CHECK constraints on identity, retry count, generation, ownership and terminal columns. */
  predicate SatisfiesConstraints(row: Row) {
    && Nonblank(row.attemptId)
    && 0 <= row.retryCount <= 2
    && row.generation >= 0
    && (if row.status == ActiveStatus
        then (row.ownerToken.None? && row.leaseExpiresAt.None?)
             || (row.ownerToken.Some? && Nonblank(row.ownerToken.value) && row.leaseExpiresAt.Some?)
        else row.ownerToken.None? && row.leaseExpiresAt.None?)
    && (match row.status
        case ActiveStatus => row.failureClass.None? && row.operatorReason.None? && row.terminalAt.None?
        case AuthenticatedStatus => row.failureClass.None? && row.operatorReason.None? && row.terminalAt.Some?
        case FailedStatus =>
          && row.failureClass.Some? && row.operatorReason.Some? && row.terminalAt.Some?
          && PermittedPair(FailurePair(row.failureClass.value, row.operatorReason.value)))
  }

  /** Puts a record back into columns. */
  function Columns(r: Record): Row {
    match r
    case ActiveRecord(id, phase, retries, generation, None) =>
      Row(id, ActiveStatus, phase, None, None, retries, None, generation, None, None)
    case ActiveRecord(id, phase, retries, generation, Some(lease)) =>
      Row(id, ActiveStatus, phase, None, None, retries, Some(lease.token), generation, Some(lease.expiresAt), None)
    case AuthenticatedRecord(id, phase, retries, generation, at) =>
      Row(id, AuthenticatedStatus, phase, None, None, retries, None, generation, None, Some(at))
    case FailedRecord(id, phase, retries, generation, f, at) =>
      Row(id, FailedStatus, phase, Some(f.failureClass), Some(f.operatorReason), retries, None, generation, None,
          Some(at))
  }

  /** The application parser accepts exactly the rows the database constraints admit, and loses nothing. */
  lemma ParserMatchesConstraints(row: Row)
    ensures Parse(row).Some? <==> SatisfiesConstraints(row)
    ensures Parse(row).Some? ==> Columns(Parse(row).value) == row
  {
  }

  // ---- statements -------------------------------------------------------------------------------------------

  /** What each repository method demands of its arguments before it sends any SQL. */
  predicate Accepted(s: Statement) {
    match s
    case Insert(id) => Nonblank(id)
    case Acquire(_, token, ms) => Nonblank(token) && ms > 0
    case Renew(o, ms) => Nonblank(o.token) && ms > 0
    case BeginCredentials(o, ms) => Nonblank(o.token) && ms > 0
    case RecordBarrier(o, ms) => Nonblank(o.token) && ms > 0
    case CompleteFailed(_, f) => PermittedPair(f)
    case _ => true
  }

  /** The owner clause of an owner's UPDATE: exact identity, token and generation on a live lease. */
  predicate Owns(row: Row, o: Owner, now: int) {
    && row.attemptId == o.attemptId
    && row.status == ActiveStatus
    && row.ownerToken == Some(o.token)
    && row.generation == o.generation
    && row.leaseExpiresAt.Some? && row.leaseExpiresAt.value > now
  }

  /** An active row whose owner let its lease run out. */
  predicate Lapsed(row: Row, attemptId: string, now: int) {
    && row.attemptId == attemptId
    && row.status == ActiveStatus
    && row.ownerToken.Some?
    && row.leaseExpiresAt.Some? && row.leaseExpiresAt.value <= now
  }

  /** Whether a statement's WHERE clause selects the row. */
  predicate Selects(s: Statement, row: Row, now: int) {
    match s
    case Insert(_) => false
    case Acquire(id, _, _) =>
      row.attemptId == id && row.status == ActiveStatus && row.ownerToken.None? && row.leaseExpiresAt.None?
    case Renew(o, _) => Owns(row, o, now)
    case BeginCredentials(o, _) => Owns(row, o, now) && row.phase == NoInteraction
    case RecordBarrier(o, _) => Owns(row, o, now) && row.phase == CredentialsMayHaveReached
    case ClaimRetry(o) => Owns(row, o, now) && row.phase == NoInteraction && row.retryCount < 2
    case ExhaustRetries(o) => Owns(row, o, now) && row.phase == NoInteraction && row.retryCount == 2
    case CompleteAuthenticated(o) => Owns(row, o, now)
    case CompleteFailed(o, _) => Owns(row, o, now)
    case ReconcileForRetry(id) => Lapsed(row, id, now) && row.phase == NoInteraction && row.retryCount < 2
    case ReconcileAsFailed(id) =>
      Lapsed(row, id, now) && ((row.phase == NoInteraction && row.retryCount == 2) || row.phase != NoInteraction)
  }

  function Released(row: Row): Row {
    row.(ownerToken := None, leaseExpiresAt := None, generation := row.generation + 1)
  }

  function FailedWith(row: Row, f: FailurePair, now: int): Row {
    Released(row).(status := FailedStatus, failureClass := Some(f.failureClass),
                   operatorReason := Some(f.operatorReason), terminalAt := Some(now))
  }

  /** The SET clause. */
  function Updated(s: Statement, row: Row, now: int): Row {
    match s
    case Insert(_) => row
    case Acquire(_, token, ms) =>
      row.(ownerToken := Some(token), generation := row.generation + 1, leaseExpiresAt := Some(now + ms))
    case Renew(_, ms) => row.(leaseExpiresAt := Some(now + ms))
    case BeginCredentials(_, ms) => row.(phase := CredentialsMayHaveReached, leaseExpiresAt := Some(now + ms))
    case RecordBarrier(_, ms) => row.(phase := SubmitMayHaveBeenDispatched, leaseExpiresAt := Some(now + ms))
    case ClaimRetry(_) => Released(row).(retryCount := row.retryCount + 1)
    case ExhaustRetries(_) =>
      FailedWith(row, FailurePair(TransientPreInteraction, TemporaryAuthenticationProblem), now)
    case CompleteAuthenticated(_) => Released(row).(status := AuthenticatedStatus, terminalAt := Some(now))
    case CompleteFailed(_, f) => FailedWith(row, f, now)
    case ReconcileForRetry(_) => Released(row).(retryCount := row.retryCount + 1)
    case ReconcileAsFailed(_) =>
      FailedWith(row,
                 if row.phase == NoInteraction then FailurePair(TransientPreInteraction, TemporaryAuthenticationProblem)
                 else FailurePair(InteractionOutcomeUncertain, AuthenticationAttemptRequiresReview), now)
  }

  /** The row a successful INSERT leaves: the column defaults of the table. */
  function Fresh(attemptId: string): Row {
    Row(attemptId, ActiveStatus, NoInteraction, None, None, 0, None, 0, None, None)
  }

  predicate Applies(s: Statement, slot: Option<Row>, now: int) {
    Accepted(s) && if slot.None? then s.Insert? else Selects(s, slot.value, now)
  }

  /** One atomic statement. A statement that selects nothing changes nothing. */
  function Exec(s: Statement, slot: Option<Row>, now: int): Option<Row> {
    if !Applies(s, slot, now) then slot
    else if slot.None? then Some(Fresh(s.attemptId))
    else Some(Updated(s, slot.value, now))
  }

  // ---- what every statement keeps ---------------------------------------------------------------------------

  /**
   * The row invariant: it parses; an unowned active row has had no credential interaction; and the generation
   * counts leases and releases exactly.
   */
  predicate Sound(row: Row) {
    && Parse(row).Some?
    && (row.status == ActiveStatus ==>
          && row.generation == 2 * row.retryCount + (if row.ownerToken.Some? then 1 else 0)
          && (row.ownerToken.None? ==> row.phase == NoInteraction))
    && (row.status != ActiveStatus ==> row.generation == 2 * row.retryCount + 2)
  }

  predicate SoundSlot(slot: Option<Row>) { slot.Some? ==> Sound(slot.value) }

  lemma ExecKeepsSound(s: Statement, slot: Option<Row>, now: int)
    requires SoundSlot(slot)
    ensures SoundSlot(Exec(s, slot, now))
  {
  }

  // ---- what statements do, read off the records ---------------------------------------------------------------

  /** The record of an active attempt that `o` holds on a lease still running. */
  predicate HeldBy(r: Record, o: Owner, now: int) {
    && r.ActiveRecord? && r.attemptId == o.attemptId && r.generation == o.generation
    && r.lease.Some? && r.lease.value.token == o.token && now < r.lease.value.expiresAt
  }

  /** The record of an active attempt whose lease has run out, or that has none. */
  predicate LapsedRecord(r: Record, id: string, now: int) {
    r.ActiveRecord? && r.attemptId == id && r.lease.Some? && r.lease.value.expiresAt <= now
  }

  predicate FreeRecord(r: Record, id: string) { r.ActiveRecord? && r.attemptId == id && r.lease.None? }

  /** What a reader of the slot is told. */
  function RecordOf(slot: Option<Row>): Option<Record> { if slot.None? then None else Parse(slot.value) }

  function RetriesOf(slot: Option<Row>): int { if slot.Some? then slot.value.retryCount else 0 }

  predicate Holds(slot: Option<Row>, o: Owner, now: int) {
    RecordOf(slot).Some? && HeldBy(RecordOf(slot).value, o, now)
  }

  /**
   * Exactly when each statement applies, in terms of the record a caller would read: for an owner's statement, a lease
   * that is its own and still running, the phase, and the retries consumed. Ending an attempt needs no phase at all.
   */
  lemma AppliesExactly(s: Statement, row: Row, now: int)
    requires Sound(row)
    ensures var r := Parse(row).value;
            match s
            case Insert(_) => !Applies(s, Some(row), now)
            case Acquire(id, token, ms) =>
              Applies(s, Some(row), now) <==> Nonblank(token) && ms > 0 && FreeRecord(r, id)
            case Renew(o, ms) => Applies(s, Some(row), now) <==> ms > 0 && HeldBy(r, o, now)
            case BeginCredentials(o, ms) =>
              Applies(s, Some(row), now) <==> ms > 0 && HeldBy(r, o, now) && r.phase == NoInteraction
            case RecordBarrier(o, ms) =>
              Applies(s, Some(row), now) <==> ms > 0 && HeldBy(r, o, now) && r.phase == CredentialsMayHaveReached
            case ClaimRetry(o) =>
              Applies(s, Some(row), now) <==> HeldBy(r, o, now) && r.phase == NoInteraction && r.retryCount < 2
            case ExhaustRetries(o) =>
              Applies(s, Some(row), now) <==> HeldBy(r, o, now) && r.phase == NoInteraction && r.retryCount == 2
            case CompleteAuthenticated(o) => Applies(s, Some(row), now) <==> HeldBy(r, o, now)
            case CompleteFailed(o, f) => Applies(s, Some(row), now) <==> HeldBy(r, o, now) && PermittedPair(f)
            case ReconcileForRetry(id) =>
              Applies(s, Some(row), now) <==> LapsedRecord(r, id, now) && r.phase == NoInteraction && r.retryCount < 2
            case ReconcileAsFailed(id) =>
              Applies(s, Some(row), now) <==>
                LapsedRecord(r, id, now) && (r.phase != NoInteraction || r.retryCount == 2)
  {
  }

  /** The record that an applied statement leaves, whole. */
  lemma LeavesExactly(s: Statement, row: Row, now: int)
    requires Sound(row) && Applies(s, Some(row), now)
    ensures var r, after := Parse(row).value, Parse(Exec(s, Some(row), now).value);
            match s
            case Insert(_) => false
            case Acquire(id, token, ms) =>
              after == Some(ActiveRecord(id, NoInteraction, r.retryCount, r.generation + 1,
                                         Some(Lease(token, now + ms))))
            case Renew(o, ms) => after == Some(r.(lease := Some(Lease(o.token, now + ms))))
            case BeginCredentials(o, ms) =>
              after == Some(r.(phase := CredentialsMayHaveReached, lease := Some(Lease(o.token, now + ms))))
            case RecordBarrier(o, ms) =>
              after == Some(r.(phase := SubmitMayHaveBeenDispatched, lease := Some(Lease(o.token, now + ms))))
            case ClaimRetry(o) =>
              after == Some(ActiveRecord(o.attemptId, NoInteraction, r.retryCount + 1, r.generation + 1, None))
            case ExhaustRetries(o) =>
              after == Some(FailedRecord(o.attemptId, NoInteraction, 2, r.generation + 1,
                                         Classify(NoInteraction, TransientInfrastructure), now))
            case CompleteAuthenticated(o) =>
              after == Some(AuthenticatedRecord(o.attemptId, r.phase, r.retryCount, r.generation + 1, now))
            case CompleteFailed(o, f) =>
              after == Some(FailedRecord(o.attemptId, r.phase, r.retryCount, r.generation + 1, f, now))
            case ReconcileForRetry(id) =>
              after == Some(ActiveRecord(id, NoInteraction, r.retryCount + 1, r.generation + 1, None))
            case ReconcileAsFailed(id) =>
              after == Some(FailedRecord(id, r.phase, r.retryCount, r.generation + 1,
                                         Classify(r.phase, TransientInfrastructure), now))
  {
  }

  /** An empty slot is filled by an insert and by nothing else, with a fresh active record. */
  lemma EmptySlotExactly(s: Statement, now: int)
    ensures Exec(s, None, now) != None <==> s.Insert? && Nonblank(s.attemptId)
    ensures Exec(s, None, now).Some? ==>
              Parse(Exec(s, None, now).value) == Some(ActiveRecord(s.attemptId, NoInteraction, 0, 0, None))
  {
  }

  /** The generation of the latest lease: the current one while active, the closing one after. */
  function Anchor(row: Row): int {
    if row.status == ActiveStatus then row.generation else row.generation - 1
  }

  /**
   * What any number of statements may do to a slot: nothing terminal moves, the counters only grow, credentials
   * pin the row to one generation, and within one generation the owner and the retry count are fixed.
   */
  predicate Evolves(a: Option<Row>, b: Option<Row>) {
    a.Some? ==>
      && b.Some?
      && var x, y := a.value, b.value;
      && y.attemptId == x.attemptId
      && x.generation <= y.generation
      && x.retryCount <= y.retryCount
      && Rank(x.phase) <= Rank(y.phase)
      && (x.status != ActiveStatus ==> y == x)
      && (x.phase != NoInteraction ==> Anchor(y) == Anchor(x) && y.retryCount == x.retryCount)
      && (x.generation == y.generation && x.status == ActiveStatus ==>
            y.status == ActiveStatus && y.ownerToken == x.ownerToken && y.retryCount == x.retryCount)
  }

  lemma ExecEvolves(s: Statement, slot: Option<Row>, now: int)
    requires SoundSlot(slot)
    ensures Evolves(slot, Exec(s, slot, now))
  {
  }

  lemma EvolvesTransitive(a: Option<Row>, b: Option<Row>, c: Option<Row>)
    requires Evolves(a, b) && Evolves(b, c)
    ensures Evolves(a, c)
  {
  }

  // ---- ownership --------------------------------------------------------------------------------------------

  /** An owner issued by this slot that no longer owns it: passed generation, other token, or lapsed lease. */
  predicate Powerless(slot: Option<Row>, o: Owner, now: int) {
    slot.Some? && o.generation <= slot.value.generation && !Owns(slot.value, o, now)
  }

  predicate ByOwner(s: Statement, o: Owner) {
    match s
    case Renew(p, _) => p == o
    case BeginCredentials(p, _) => p == o
    case RecordBarrier(p, _) => p == o
    case ClaimRetry(p) => p == o
    case ExhaustRetries(p) => p == o
    case CompleteAuthenticated(p) => p == o
    case CompleteFailed(p, _) => p == o
    case _ => false
  }

  /** While a lease is live nobody but its owner can change the row. */
  lemma LiveLeaseIsExclusive(s: Statement, row: Row, o: Owner, now: int)
    requires Sound(row) && Owns(row, o, now) && !ByOwner(s, o)
    ensures Exec(s, Some(row), now) == Some(row)
  {
  }

  /** What a lease extends to: an owner's applied renewal, begin or barrier holds until its own duration has passed. */
  lemma ExtensionHolds(s: Statement, row: Row, now: int, later: int)
    requires Sound(row) && (s.Renew? || s.BeginCredentials? || s.RecordBarrier?) && Applies(s, Some(row), now)
    ensures var after := Exec(s, Some(row), now).value; Owns(after, s.owner, later) <==> later < now + s.leaseMs
  {
  }

  /** A fresh lease is owned, under the next generation, until its own duration has passed. */
  lemma LeaseHolds(s: Statement, row: Row, now: int, later: int)
    requires Sound(row) && s.Acquire? && Applies(s, Some(row), now)
    ensures var after := Exec(s, Some(row), now).value;
            Owns(after, Owner(row.attemptId, s.token, row.generation + 1), later) <==> later < now + s.leaseMs
  {
  }

  /** Whatever ends an attempt stamps it with that moment, releases it, and leaves phase and budget as they were. */
  lemma TerminalIsStamped(s: Statement, row: Row, now: int)
    requires Sound(row) && row.status == ActiveStatus && Exec(s, Some(row), now).value.status != ActiveStatus
    ensures var after := Exec(s, Some(row), now).value;
            && after.terminalAt == Some(now) && after.ownerToken.None? && after.leaseExpiresAt.None?
            && after.generation == row.generation + 1 && after.phase == row.phase && after.retryCount == row.retryCount
  {
  }

  /**
   * No active row is ever stuck: at any moment exactly one of these holds - anyone may lease it, its owner may renew,
   * or its lapsed lease may be reconciled, and then by exactly one of the two reconciling statements.
   */
  lemma NobodyIsStuck(row: Row, token: string, ms: int, now: int)
    requires Sound(row) && row.status == ActiveStatus && Nonblank(token) && ms > 0
    ensures var free := Applies(Acquire(row.attemptId, token, ms), Some(row), now);
            var owned := row.ownerToken.Some?
                && Applies(Renew(Owner(row.attemptId, row.ownerToken.value, row.generation), ms), Some(row), now);
            var retry := Applies(ReconcileForRetry(row.attemptId), Some(row), now);
            var fail := Applies(ReconcileAsFailed(row.attemptId), Some(row), now);
            && (free || owned || retry || fail)
            && !(free && owned) && !(free && (retry || fail)) && !(owned && (retry || fail)) && !(retry && fail)
  {
  }

  // ---- refinement of the pure machine -----------------------------------------------------------------------

  function Abstraction(row: Row): Option<Attempt> {
    match Parse(row)
    case None => None
    case Some(ActiveRecord(_, phase, _, _, _)) => Some(Active(phase))
    case Some(AuthenticatedRecord(_, phase, _, _, _)) => Some(Authenticated(phase))
    case Some(FailedRecord(_, phase, _, _, f, _)) => Some(Failed(phase, f))
  }

  /** The event of the pure machine a statement stands for, if it is not a stutter. */
  function EventOf(s: Statement): Option<Event> {
    match s
    case BeginCredentials(_, _) => Some(BeginCredentialInteraction)
    case RecordBarrier(_, _) => Some(RecordSubmitBarrier)
    case CompleteAuthenticated(_) => Some(ConfirmAuthenticated)
    case ExhaustRetries(_) => Some(Fail(TransientInfrastructure))
    case ReconcileAsFailed(_) => Some(Fail(TransientInfrastructure))
    case CompleteFailed(_, f) => Some(Fail(CauseFor(f)))
    case _ => None
  }

  /**
   * Every applied statement is a step of the pure machine or leaves it in place - for an arbitrary caller of
   * `completeFailed`, exactly when the pair it passes is one the machine can produce at the row's phase.
   */
  lemma StatementRefinesMachine(s: Statement, row: Row, now: int)
    requires Sound(row) && Applies(s, Some(row), now)
    ensures Abstraction(row).Some? && Abstraction(Updated(s, row, now)).Some?
    ensures var a, b := Abstraction(row).value, Abstraction(Updated(s, row, now)).value;
            && (!s.CompleteFailed? ==>
                  if EventOf(s).None? then b == a else Transition(a, EventOf(s).value) == Success(b))
            && (s.CompleteFailed? ==>
                  ((exists cause :: Transition(a, Fail(cause)) == Success(b)) <==> Classifiable(row.phase, s.failure)))
  {
    ExecKeepsSound(s, Some(row), now);
    var a, b := Abstraction(row).value, Abstraction(Updated(s, row, now)).value;
    if s.CompleteFailed? {
      assert b == Failed(row.phase, s.failure);
      if Classifiable(row.phase, s.failure) {
        var cause :| Classify(row.phase, cause) == s.failure;
        assert Transition(a, Fail(cause)) == Success(b);
      }
    }
  }
}
