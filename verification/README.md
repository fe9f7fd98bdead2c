# RD-Sync: bank logins that are never repeated by accident

RD-Sync drives bank portals on behalf of its users. A login that is repeated, or a submit that is dispatched twice, can
lock an account, so the repository guards logins with durable protocols that many workers run at once. This project
models those protocols and proves what they are for, over every interleaving of workers, lapsed leases, lost replies
and crashes.

## What is modelled

**The authentication attempt.** `AttemptMachine` is the pure machine of phases, failure classification and retry
disposition. `AttemptRow` is the durable row with its parser, its table constraints and each SQL statement as one atomic
guarded update; `AttemptHistory` is every history of such statements by anybody; `AttemptRepository` is the repository
as an object whose row others change between two of its statements. `MutationAuthority` holds the rules of the
single-use authority, `AuthorityHandle` and `MutationRunner` the authority, the runner and its fenced page as objects,
and `LoginPlan` what a strategy and its heartbeat do and where that leads.

`FencedExecution` puts all of it into one step system: one row, a clock that never goes back, any number of workers,
statements in flight, replies that arrive or are lost, zombie statements that execute after their caller gave up,
heartbeats, aborts, and a trace of raw page mutations. A crash is a worker that takes no further step.
`FencedExecutionProofs` proves the safety results over every run, `FenceFailures` what a failure does and that the first
one is final; `FencedExecutionWitness` shows that every plan in order gets through and is concluded as it should.

**The expiry episode.** `ExpiryEpisodes` is the episode with its three tuple parsers and every guarded update.
`EpisodeSystem` is every interleaving of updates of the episode, resolution, outbox and audit stores, with a ledger that
says which effect (a login, an alert) an update entitled its caller to. `EpisodeProofs` keeps its invariant and
`EpisodeTheorems` says what it means. `ExpiryStore` is the stores as an object, `ExpiryProtocols` the effect sequences
that run over it with everybody else acting at each await, `SessionMonitor` the monitor's tick, `AuditSink` the
deduplicating sink.

**Where the two meet.** `ObservedRestoration` is the one transaction that moves an attempt and an episode together, and
every interleaving of it with all other updates; `ObservedResolver` is the resolver that runs it on the two stores.
`CoordinatorReplies` is what the coordinator makes of the replies it gets, as a machine that hears one at a time.
`AuthorityMint` is the loop that mints authorities; `SessionCoordinator` is the coordinator, which follows that machine
reply by reply, and the precondition above it, which also runs the login.

**Smaller cores.** `CircuitBreaker`, `BrowserSemaphore`, `LockKeys` and `AutoLoginLock`.

## How to read the models

- Stores that code updates in place are classes; each method is tied to a function of the old state, and the results
  over whole histories are lemmas about those functions. `Await` is any number of updates by anybody else and is called
  wherever the code awaits. `Fails`, and a value assigned `*`, is a throw, a lost reply, an abort or an answer that the
  code cannot foresee.
- What a method ensures without more holds whatever happens. A call that is `quiet` meets no interference and no failure
  that is not among its parameters, and its clauses say exactly what it comes to: which answer, and what it leaves. So
  each method says both what no interleaving can break and what it does when nobody interferes.
- Lemmas named `...Exactly` are tables: when a statement, update or answer applies, and what it leaves, in terms of the
  record, the episode or the replies that a caller can see.
- One `(bankCode, runId)` slot of the attempt table is modelled: every statement names that pair and the table is unique
  on it. The first generation is the column default 0 (`prisma/migrations/20260813170000_add_bank_session_authentication_attempt/migration.sql`, line 7).
- In the interleaved model the diagnoses that follow a statement which selected nothing are one reply, `Refused`: the
  handle consumes itself on all of them alike. `AttemptRepository` keeps them apart. A handle's reading of a reply and
  the step of the runner's gate that awaits it are one step, as they happen in one turn of the event loop.
- New episode identities come from a random UUID and are assumed never to have been used before; `Allowed` says so.
  One caller can break this by itself: a monitor whose publish hook threw keeps its candidate and submits it again.
  `SecondAlertExactly` says when that licenses a second alert and `StaleCandidateAlertsTwice` shows it happening;
  the methods report it as `reused` or `IdentityReused` and go no further.
- The interpretation of the code where its two repositories differ: `terminalFailureReconciledAt` keeps its first value
  and marking an audit leaves `updatedAt` alone, as in memory; a replayed episode has no terminal failure reason, as in
  SQL.

## What turned out false

- Cancelling the publication of an episode that a scrape-time claim holds throws at the runtime tuple check, so
  restoring a resolved scrape-time episode does not close it: `RuntimeCheckFiresExactly` and
  `QuietRestorationClosesExactly` give the exact conditions, `ResolvedScrapeIsNotClosed` reaches such an episode three
  updates from an empty store, and `CancelAndClose` and `RestoreExpiryEpisode` never close one, whoever interferes.
- A session reported as "observed" was not always observed. `ObservedExactly` says when it was: a probe said
  "authenticated" if and only if it is not the case that the first read found the row owned and no lease was found
  lapsed afterwards. `SkippedProbeWindow` is a conversation in which it was not.
- Three failures in under 30 minutes do not always open the breaker. `BurstOpensExactly` and, for the shipped policy,
  `ThreeOpenExactly` say when they do, in terms of the stored row and the failure times; `ThreeMayNotOpen` is a history
  in which they do not, and `BurstForcesOpen` and `BoundIsTight` give the number that always suffices.
- An episode identity is not always alerted about once. A monitor keeps its candidate when a tick fails; if somebody
  has closed its episode by the next tick, `getOrCreate` creates it again and the code alerts a second time:
  `SecondAlertExactly` says exactly when, `StaleCandidateAlertsTwice` is such a history, and `Elect` reports exactly
  this case as `reused`.

## Model

| member | source | states |
|---|---|---|
| `AttemptMachine.ClassifiableExactly` | src/modules/bank-sessions/session-authentication-attempt.ts:114-139 | which failure pairs the pure machine can produce at a phase, as an if-and-only-if: a permitted pair, never "uncertain" before the first credential, never "transient" after it; and for each of them a cause that produces it |
| `AttemptMachine.BarrierAtMostOnce` | src/modules/bank-sessions/session-authentication-attempt.ts:83-112 | every accepted event history begins credentials at most once and records the submit barrier at most once, exactly as often as its final phase shows |
| `AttemptMachine.RetriedExactly` | src/modules/bank-sessions/session-authentication-attempt.ts:147-158 | a failure is retried automatically exactly for a transient cause before the first credential with a retry left |
| `AttemptRow.ParserMatchesConstraints` | src/modules/bank-sessions/session-authentication-attempt-repository.ts:164-188 | the record parser accepts exactly the rows the table's CHECK constraints admit, and loses no column |
| `AttemptRow.ExecKeepsSound` | src/modules/persistence/prisma-bank-session-authentication-attempt-repository.ts:101-187 | every statement keeps: the row parses, an unowned active row is at the first phase, the generation is an exact function of retries and ownership |
| `AttemptRow.ExecEvolves` | src/modules/persistence/prisma-bank-session-authentication-attempt-repository.ts:121-187 | every statement only moves a row forward: counters and phase never decrease, a terminal row is frozen, credentials pin the generation and the retry count |
| `AttemptRow.AppliesExactly` | src/modules/persistence/prisma-bank-session-authentication-attempt-repository.ts:121-187 | exactly when each statement applies, in terms of the record a caller reads: for an owner's statement its own running lease, the phase and the retries consumed; a permitted failure and an authentication at every phase |
| `AttemptRow.LeavesExactly` | src/modules/persistence/prisma-bank-session-authentication-attempt-repository.ts:121-187 | the whole record every applied statement leaves |
| `AttemptRow.EmptySlotExactly` | src/modules/persistence/prisma-bank-session-authentication-attempt-repository.ts:101-114 | an empty slot is filled by an insert with an identity and by nothing else, with a fresh active record |
| `AttemptRow.LiveLeaseIsExclusive` | src/modules/persistence/prisma-bank-session-authentication-attempt-repository.ts:121-187 | while a lease is live no statement but one by exactly that identity, token and generation changes the row |
| `AttemptRow.ExtensionHolds` | src/modules/persistence/prisma-bank-session-authentication-attempt-repository.ts:134-155 | after an applied renewal, begin or barrier the owner owns the row at exactly the times before the new expiry |
| `AttemptRow.LeaseHolds` | src/modules/persistence/prisma-bank-session-authentication-attempt-repository.ts:121-123 | a fresh lease is owned, under the next generation, at exactly the times before its expiry |
| `AttemptRow.TerminalIsStamped` | src/modules/persistence/prisma-bank-session-authentication-attempt-repository.ts:160-185 | whatever ends an attempt stamps it with that moment, releases it and leaves phase and budget as they were |
| `AttemptRow.NobodyIsStuck` | src/modules/persistence/prisma-bank-session-authentication-attempt-repository.ts:121-187 | at every moment exactly one of these applies to an active row: lease it, renew it, reconcile it for a retry, reconcile it as failed |
| `AttemptRow.StatementRefinesMachine` | src/modules/persistence/prisma-bank-session-authentication-attempt-repository.ts:141-187 | every applied statement is a transition of the pure machine or a stutter; for a caller-chosen failure exactly when the pair is classifiable at the row's phase |
| `AttemptHistory.CounterLaw` | src/modules/persistence/prisma-bank-session-authentication-attempt-repository.ts:121-187 | over every run: the row is sound, the number of leases ever taken is half the generation rounded up, and it is at most three |
| `AttemptHistory.RunEvolves` | src/modules/persistence/prisma-bank-session-authentication-attempt-repository.ts:101-187 | any later row of any run is an evolution of any earlier one, and time does not go back |
| `AttemptHistory.OwnershipIsNeverRegained` | src/modules/persistence/prisma-bank-session-authentication-attempt-repository.ts:90-99 | an owner whose generation has passed or whose lease has lapsed changes nothing at any later time of any run |
| `AttemptHistory.NoLeaseAfterCredentials` | src/modules/persistence/prisma-bank-session-authentication-attempt-repository.ts:121-132 | once credentials may have reached the portal no lease applies for the rest of any run, and the generation that entered them stays the last |
| `AttemptHistory.LeaseIsExclusive` | src/modules/persistence/prisma-bank-session-authentication-attempt-repository.ts:121-187 | for as long as a lease runs, no history of others' statements changes the row in any way |
| `AttemptRepository.AttemptRepository.constructor` | prisma/migrations/20260813170000_add_bank_session_authentication_attempt/migration.sql:3-13 | the slot begins empty |
| `AttemptRepository.AttemptRepository.Execute` | src/modules/persistence/prisma-bank-session-authentication-attempt-repository.ts:121-187 | one guarded statement: the new slot is the statement function of the old one, and a record comes back exactly when the guard selected the row |
| `AttemptRepository.AttemptRepository.GetOrCreate` | src/modules/persistence/prisma-bank-session-authentication-attempt-repository.ts:101-114 | created exactly on an empty slot, with a fresh record; found or identity conflict otherwise, each tied to the row; it throws exactly for a blank identity, whatever the slot holds |
| `AttemptRepository.AttemptRepository.FindExact` | src/modules/persistence/prisma-bank-session-authentication-attempt-repository.ts:116-119 | the parsed row exactly when it carries this attempt identity |
| `AttemptRepository.AttemptRepository.AcquireLease` | src/modules/persistence/prisma-bank-session-authentication-attempt-repository.ts:121-132 | acquired exactly on a free row of this attempt, and then live for its whole duration, at the initial phase, under a generation nobody had; missing, not applied, terminal, held and lapsed are told apart exactly by the row as read afterwards |
| `AttemptRepository.AttemptRepository.DiagnoseOwner` | src/modules/persistence/prisma-bank-session-authentication-attempt-repository.ts:90-99 | missing, terminal, stale, lapsed and current are told apart exactly; anything but current is final for that owner |
| `AttemptRepository.AttemptRepository.ByStatement` | src/modules/persistence/prisma-bank-session-authentication-attempt-repository.ts:134-179 | an owner's call is done exactly when its statement applies, and otherwise diagnosed on a row others may have changed since |
| `AttemptRepository.AttemptRepository.RenewLease` | src/modules/persistence/prisma-bank-session-authentication-attempt-repository.ts:134-139 | done exactly for the holder of a running lease, and then only the expiry has changed; a refusal is diagnosed exactly |
| `AttemptRepository.AttemptRepository.BeginCredentialInteraction` | src/modules/persistence/prisma-bank-session-authentication-attempt-repository.ts:141-146 | done exactly for the holder of a running lease at the first phase, and the whole record after; "already started" exactly when the refused owner still holds it |
| `AttemptRepository.AttemptRepository.RecordSubmitBarrier` | src/modules/persistence/prisma-bank-session-authentication-attempt-repository.ts:148-155 | done exactly for the holder of a running lease at the second phase, and the whole record after; a refused owner that still holds it is told "already recorded" or "invalid transition" by whether the barrier is there |
| `AttemptRepository.AttemptRepository.ClaimRetry` | src/modules/persistence/prisma-bank-session-authentication-attempt-repository.ts:157-163 | granted exactly for the holder of a running lease at the first phase with fewer than two retries consumed, and the whole record after; exhausted, if nobody interferes, exactly with two; others may act between the two statements |
| `AttemptRepository.AttemptRepository.CompleteAuthenticated` | src/modules/persistence/prisma-bank-session-authentication-attempt-repository.ts:165-179 | done exactly for the holder of a running lease, at whatever phase; the row is then authenticated under the closing generation |
| `AttemptRepository.AttemptRepository.CompleteFailed` | src/modules/persistence/prisma-bank-session-authentication-attempt-repository.ts:167-173 | done exactly for the holder of a running lease and a permitted pair, at whatever phase, and leaves exactly that failure; an unpermitted pair throws and changes nothing |
| `AttemptRepository.AttemptRepository.ReconcileExpiredLease` | src/modules/persistence/prisma-bank-session-authentication-attempt-repository.ts:181-187 | a lapsed pre-credential lease with budget always becomes a retry, after credentials were begun a lapsed lease never does; reconciled, if nobody interferes, exactly when lapsed, and otherwise as the failure of its phase |
| `FencedExecutionProofs.StepKeepsInv` | src/worker/scraper/authenticated-session-mutation-runner.ts:39-72 | every step of anybody - time, statements, replies, lost replies, heartbeats, page calls, raw mutations, aborts, decisions - keeps the joint invariant of row, handles, runners and pages |
| `FencedExecution.DecisionFitsThePhase` | src/worker/scraper/authenticated-session-mutation-runner.ts:25-36 | a run decides success exactly for a login that succeeded after a recorded submit, a retry exactly for one that was transient or cancelled before any interaction, and otherwise the failure the pure machine produces at that phase from the cause that a rejection names, or from the one that fits an unnamed outcome |
| `FencedExecutionProofs.AtMostOneClick` | src/worker/scraper/durable-auto-login-mutation.ts:42-54 | over every interleaving of any number of workers, and for any strategy, at most one click reaches the page |
| `FencedExecutionProofs.ClickIsRecordedFirst` | src/modules/persistence/prisma-bank-session-authentication-attempt-repository.ts:148-155 | when the click was issued the row already recorded that a submit may have been dispatched, and it always will |
| `FencedExecutionProofs.OneExecutionTouchesCredentials` | src/worker/scraper/durable-auto-login-mutation.ts:42-54 | every non-empty fill and the click belong to one single lease generation |
| `FencedExecutionProofs.ThreeLevelAgreement` | src/modules/bank-sessions/authentication-mutation-authority.ts:116-177 | while a handle is live and idle and the row has its generation, row and handle agree on the phase, and the runner with both unless it is sticky - lost replies included |
| `FencedExecutionProofs.TerminalRowsAreClassified` | src/worker/scraper/authenticated-session-mutation-runner.ts:25-36 | every reachable failed row carries what the pure machine says for some cause, and every terminal row yields "do not retry" |
| `FencedExecutionProofs.RowRefinesMachine` | src/modules/bank-sessions/session-authentication-attempt.ts:83-112 | every step of every driven run is a transition of the pure machine, a stutter, or the creation |
| `FencedExecutionProofs.ReportedOutcomesAreDurable` | src/worker/scraper/authenticated-session-mutation-runner.ts:62-71 | a runner's terminal outcome is in the row when it is reported, and no two runners report one |
| `FencedExecutionWitness.ALoginGoesThrough` | src/worker/scraper/authenticated-session-mutation-runner.ts:41-72 | the bounds are not empty: an undisturbed login, whatever its plan in order and its result, leaves its fills and click on the page, and report and row are what the decision on the phase it reached says |
| `FencedExecutionWitness.PlanGoesThrough` | src/worker/scraper/durable-auto-login-mutation.ts:38-57 | the fence lets every plan in order through: refills, heartbeats, clearings and the click each reach the page, on the phase they need |
| `FencedExecutionWitness.RunConcludes` | src/worker/scraper/authenticated-session-mutation-runner.ts:60-72 | a run nothing disturbs any more reports exactly its decision and leaves exactly that record: authenticated, retry claimed or exhausted, or the failure |
| `FenceFailures.FirstFailureIsFinal` | src/worker/scraper/authenticated-session-mutation-runner.ts:43-61 | over any history, from a worker's first failure on it sends no statement, shows no fill and no click on the page, and is never reported as anything but unresolved |
| `FenceFailures.FlagsExactly` | src/worker/scraper/authenticated-session-mutation-runner.ts:46-51 | exactly which events make a failure stick, abort the signal, block the page, or count as a first fill |
| `FenceFailures.StageExactly` | src/worker/scraper/authenticated-session-mutation-runner.ts:54-72 | exactly how a run proceeds: it returns, drains, decides and ends with what its last call came to, and unresolved after any failure |
| `FenceFailures.AsksExactly` | src/worker/scraper/durable-auto-login-mutation.ts:38-54 | a page call asks for nothing once the page is blocked or the signal aborted, a click for the barrier, a fill for the begin or a renewal; heartbeats end with the execution |
| `FenceFailures.RowMovesExactly` | src/modules/persistence/prisma-bank-session-authentication-attempt-repository.ts:101-187 | the row moves by the statement that executes in a step and by nothing else |
| `FenceFailures.WorkersComeExactly` | src/modules/bank-sessions/authentication-mutation-authority.ts:85-110 | exactly the delivered, applied leases make workers |
| `FenceFailures.PageGrowsExactly` | src/worker/scraper/durable-auto-login-mutation.ts:42-54 | the page sees exactly the granted fills and clicks that are not aborted, and the clearings |
| `LoginPlan.ReachedExactly` | src/worker/scraper/durable-auto-login-mutation.ts:38-57 | a plan is in order exactly if it clicks at most once and only after filling something in, and which phase it reaches |
| `MutationAuthority.VerdictExactly` | src/modules/bank-sessions/authentication-mutation-authority.ts:119-177 | what the handle makes of any reply whatever, exactly: authorized, completed, retry claimed or exhausted by which record, and consumed by everything but an authorization |
| `AuthorityHandle.Authority.constructor` | src/modules/bank-sessions/authentication-mutation-authority.ts:106-108 | a minted authority is unclaimed |
| `AuthorityHandle.Authority.Claim` | src/modules/bank-sessions/authentication-mutation-authority.ts:112-118 | only the first claim gets a handle, in phase "leased" |
| `AuthorityHandle.ClaimedAuthority.constructor` | src/modules/bank-sessions/authentication-mutation-authority.ts:116-118 | a claimed handle begins leased with no pending call |
| `AuthorityHandle.ClaimedAuthority.Run` | src/modules/bank-sessions/authentication-mutation-authority.ts:132-155 | refused out of sequence with the row, the clock and the handle as they were; authorized only with the phase it stands for durably recorded under this lease; any other reply consumes the handle; a quiet call is authorized exactly while the owner holds the attempt at the phase the handle is in, and "ownership lost" exactly when it no longer does |
| `AuthorityHandle.ClaimedAuthority.Complete` | src/modules/bank-sessions/authentication-mutation-authority.ts:156-165 | a completion consumes the handle as it is sent, and "completed" means the row is terminal with exactly that outcome and generation; a quiet one goes through exactly while the owner holds the attempt |
| `AuthorityHandle.ClaimedAuthority.ClaimRetry` | src/modules/bank-sessions/authentication-mutation-authority.ts:166-177 | a retry is possible only before any interaction; "exhausted" means the row failed as temporary with both retries consumed; if nobody interferes claimed, exhausted and lost are told apart exactly |
| `MutationRunner.Fence.constructor` | src/worker/scraper/authenticated-session-mutation-runner.ts:44-51 | a fence begins leased, unstuck and inactive |
| `MutationRunner.Fence.Guarded` | src/worker/scraper/authenticated-session-mutation-runner.ts:46-50 | an operation is authorized only inside the execution and before any failure, advances the runner exactly as the handle, and any refusal sticks; a quiet one on a held attempt is authorized exactly if the phase permits it, and its lease then runs for its whole duration |
| `MutationRunner.FencedPage.constructor` | src/worker/scraper/durable-auto-login-mutation.ts:25-27 | a page begins with nothing mutated |
| `MutationRunner.FencedPage.Fill` | src/worker/scraper/durable-auto-login-mutation.ts:42-49 | a non-empty fill goes through only with credentials recorded under this lease; an empty one leaves page, fence, handle and row as they were |
| `MutationRunner.FencedPage.Click` | src/worker/scraper/durable-auto-login-mutation.ts:50-53 | a click goes through at most once in the page's life, on a durable submit barrier; a refusal blocks the page |
| `MutationRunner.Execute` | src/worker/scraper/durable-auto-login-mutation.ts:55-57 | any sequence of fills, clicks and heartbeats keeps the page and the row consistent; an undisturbed one leads exactly to the phase its plan reaches, and a plan out of order to a failure |
| `MutationRunner.Finish` | src/worker/scraper/authenticated-session-mutation-runner.ts:64-71 | nothing is sent after a failure stuck, each reported outcome is the row's, and an undisturbed call is reported exactly as what it asked for |
| `MutationRunner.Run` | src/worker/scraper/authenticated-session-mutation-runner.ts:41-72 | one run clicks at most once, reports "authenticated" only on a durably authenticated row whose submit was recorded; a heartbeat that does not start or stop leaves it unresolved, and a second run of the same authority does nothing; an undisturbed run reports exactly the decision on the phase its plan reaches |
| `ObservedRestoration.BothOrNeither` | src/modules/persistence/prisma-bank-session-authentication-attempt-repository.ts:189-219 | attempt authenticated and episode resolved together or not at all, exactly when the caller owns the attempt and the same run's episode has no live mutator; neither "CAS lost" throw is reachable |
| `ObservedRestoration.AttemptAnswersExactly` | src/modules/persistence/prisma-bank-session-authentication-attempt-repository.ts:196-208 | every answer about the attempt, as an if-and-only-if on the record and the episode: missing, stale, lapsed, restored earlier, terminal conflict |
| `ObservedRestoration.EpisodeAnswersExactly` | src/modules/persistence/prisma-bank-session-authentication-attempt-repository.ts:209-218 | once the owner holds the attempt, exactly which episode is missing, of another run, possibly still mutating, with nothing to resolve, or restored |
| `ObservedRestoration.CoupledExactly` | src/modules/persistence/prisma-bank-session-authentication-attempt-repository.ts:214-219 | on the two stores both updates are made exactly where the transaction may restore, and otherwise nothing changes |
| `ObservedRestoration.NeverOverrulesALiveMutator` | src/modules/persistence/prisma-bank-session-authentication-attempt-repository.ts:211-212 | a started mutation whose lease is live or absent is never resolved, and nothing is written |
| `ObservedRestoration.ResolveKeepsBoth` | src/modules/persistence/prisma-bank-session-authentication-attempt-repository.ts:214-218 | both machines' invariants survive and both records only move forward |
| `ObservedRestoration.RunKeeps` | src/modules/persistence/prisma-bank-session-authentication-attempt-repository.ts:189-225 | over every interleaving of restorations with all other updates of both stores, both invariants hold and both only move forward |
| `ObservedRestoration.RepeatGivesTheSameEvidence` | src/modules/persistence/prisma-bank-session-authentication-attempt-repository.ts:198-205 | at any later time of any history a repeated restoration changes nothing and answers with the same evidence, exactly until the bank has an episode of another run |
| `CoordinatorReplies.AlwaysConcludes` | src/modules/bank-sessions/ensure-authenticated-session.ts:68-148 | whatever is answered, and however often, the coordinator has concluded or turned to the mint after at most eight replies and two passes |
| `CoordinatorReplies.AskedExactly` | src/modules/bank-sessions/ensure-authenticated-session.ts:75-133 | what is asked next, exactly, in terms of the replies: a probe for a missing row, for a row read free and for one just released; its creation; a lease; a reconciliation for the first lapsed lease and for no later one; the mint exactly after "unauthenticated" |
| `CoordinatorReplies.AnsweredExactly` | src/modules/bank-sessions/ensure-authenticated-session.ts:60-147 | every verdict as an if-and-only-if on the last reply, and for a completion on the lease it completes |
| `CoordinatorReplies.ObservedExactly` | src/modules/bank-sessions/ensure-authenticated-session.ts:76-147 | over every sequence of replies that ends in "observed": a probe said "authenticated" if and only if it is not the case that the first read found an active owned row and no lease was found lapsed |
| `CoordinatorReplies.SkippedProbeWindow` | src/modules/bank-sessions/ensure-authenticated-session.ts:83-113 | that window is real: a row read as owned, handed back, leased and completed makes the coordinator answer "observed" though no probe was asked |
| `AuthorityMint.AcquireAuthenticationMutationAuthority` | src/modules/bank-sessions/authentication-mutation-authority.ts:59-110 | at most two passes whatever is answered, and a second one only once a lapsed lease was given up; an authority only after an unauthenticated probe of the same pass, on a live lease of its own at the initial phase; every verdict is the one its last reply says; a quiet call answers exactly by the row and the portal |
| `ObservedResolver.RestorationTransaction` | src/modules/persistence/prisma-bank-session-authentication-attempt-repository.ts:192-219 | the transaction's looks and updates, in the code's order, compute exactly the specified outcome on both stores |
| `ObservedResolver.CommitRestoration` | src/modules/persistence/prisma-bank-session-authentication-attempt-repository.ts:214-218 | both updates find their locked rows, so the evidence is that of the row just authenticated |
| `ObservedResolver.ResolveObservedRestoration` | src/modules/persistence/prisma-bank-session-authentication-attempt-repository.ts:189-225 | with one retry on a serialization failure, any answer that came back is backed by both stores; a second failure throws, and a quiet call answers and leaves exactly what the transaction specifies |
| `SessionCoordinator.CompleteObserved` | src/modules/bank-sessions/ensure-authenticated-session.ts:134-147 | "observed" only with this attempt's row durably authenticated; a conflict or a live mutator only when an episode is being restored; the verdict is the one `OnCompletion` gives that reply, and for a held attempt that nobody disturbs the one the episode decides |
| `SessionCoordinator.Open` | src/modules/bank-sessions/ensure-authenticated-session.ts:75-99 | the first read, and for a missing row the probe and the creation, lead where the machine of replies leads; a quiet opening owes a probe exactly for a row that is there and free, and creates nothing before a probe said "authenticated" |
| `SessionCoordinator.CoordinateAuthenticatedSessionState` | src/modules/bank-sessions/ensure-authenticated-session.ts:68-148 | its answer is the one the machine of replies gives on the replies it got, or that of the mint; at most two passes and two of the mint; every verdict about the attempt is in its row; for "observed", a probe said "authenticated" if and only if not both the first read was owned and no lease was found lapsed; a quiet call answers exactly by row, episode and portal |
| `SessionCoordinator.CoordinateAuthenticatedSessionPrecondition` | src/modules/bank-sessions/authenticated-session-precondition.ts:72-95 | the precondition is met only with the row durably authenticated, a specific failure is reported only with it in the row, and at most one click happened; a quiet call comes to exactly what row, episode, portal and login decide |
| `SessionCoordinator.LoginReported` | src/modules/bank-sessions/authenticated-session-precondition.ts:72-95 | what an undisturbed login comes to for the caller: met exactly by a success after the click, delivered again exactly for a transient or cancelled one that filled nothing in while a retry is left, and otherwise for an operator with the reason a rejection names |
| `SessionCoordinator.StateReported` | src/modules/bank-sessions/authenticated-session-precondition.ts:72-95 | each quiet answer of the coordinator, as the caller is told it |
| `ExpiryEpisodes.ParsersMatchConstraints` | prisma/migrations/20260810000000_tighten_scrape_time_consumer_lease_check/migration.sql:5-20 | the publication, consumer and lease parsers and the three table constraints accept the same tuples; the consumer constraint also rules out a reservation on a restored episode |
| `ExpiryEpisodes.RuntimeCheckFiresExactly` | src/modules/bank-sessions/expiry-episodes.ts:492-503 | on a well-formed episode the runtime tuple check throws exactly for cancelling the publication of a scrape-time claim, and otherwise the result is well-formed |
| `ExpiryEpisodes.UncheckedUpdatesKeepWellFormed` | src/modules/bank-sessions/expiry-episodes.ts:425-480 | the updates that bypass the check keep all three tuples well-formed too |
| `ExpiryEpisodes.AcceptedExactly` | src/modules/bank-sessions/expiry-episodes.ts:295-375 | an update is sent exactly with proper tokens and, for a lease, a duration |
| `ExpiryEpisodes.NewIsOpen` | src/modules/bank-sessions/expiry-episodes.ts:273-294 | a new episode can be published, cancelled or claimed by a scrape, and closed, and by nothing else changed; no audit of it is delivered |
| `ExpiryEpisodes.UpdatesExactly` | src/modules/bank-sessions/expiry-episodes.ts:295-375 | exactly when each checked update goes through on a well-formed episode |
| `ExpiryEpisodes.UpdateLeavesExactly` | src/modules/bank-sessions/expiry-episodes.ts:295-375 | column by column what it leaves: a lapsed or given-up claim requires manual recovery, and only the two resolutions resolve |
| `ExpiryEpisodes.MarkLeavesExactly` | src/modules/bank-sessions/expiry-episodes.ts:466-480 | an audit mark touches its flag alone, but that a restored audit withdraws a mere reservation |
| `ExpiryEpisodes.TerminalAnswersExactly` | src/modules/bank-sessions/expiry-episodes.ts:425-449 | the four answers to a failed queue job, exactly: stale, known, deferred by a live lease, or reconciled |
| `ExpiryEpisodes.TerminalLeavesExactly` | src/modules/bank-sessions/expiry-episodes.ts:425-449 | a failed job leaves no lease and nothing mutating: whatever was leased or had begun is for an operator |
| `ExpiryEpisodes.ResolutionLeavesExactly` | src/modules/bank-sessions/expiry-episodes.ts:376-408 | a resolution by hand or by observation resolves the attempt and touches nothing else but its lease; which episodes can be closed and which can be resolved by observation |
| `ExpiryEpisodes.ConsumerLeaseHolds` | src/modules/bank-sessions/expiry-episodes.ts:322-343 | a consumer lease taken or renewed is owned at exactly the times before its expiry |
| `ExpiryEpisodes.LiveConsumerLeaseIsExclusive` | src/modules/bank-sessions/expiry-episodes.ts:318-375 | while a consumer lease is live, claim, state and expiry change only for the claim token's holder; failed jobs defer, observation refuses, and only a restored audit may clear a reservation |
| `ExpiryEpisodes.PublicationRetakenExactly` | src/modules/bank-sessions/expiry-episodes.ts:295-317 | a publication in progress is retaken exactly under its own token after the timeout, or at once after a reported failure |
| `ExpiryEpisodes.RestoredClosesExactly` | src/modules/bank-sessions/expiry-episodes.ts:212-231 | exactly which episodes can be cancelled and closed once both audits are marked |
| `EpisodeProofs.StepKeepsInv` | src/modules/bank-sessions/expiry-episodes.ts:249-539 | every update by anybody keeps the joint invariant of episodes, resolutions, outbox, sink and ledger, and only moves the stores forward |
| `EpisodeProofs.RunLater` | src/modules/bank-sessions/expiry-episodes.ts:249-539 | any later state of any run is ahead of any earlier one: identities, events, resolutions and acknowledgements are never lost or undone |
| `EpisodeTheorems.EveryEpisodeParses` | src/modules/persistence/prisma-bank-session-expiry-episode-repository.ts:34-55 | every reachable episode satisfies the publication, consumer and lease parsers and the three table constraints |
| `EpisodeTheorems.MutationStartsAtMostOnce` | src/modules/bank-sessions/expiry-episodes.ts:352-357 | over any history at most one claim per episode identity ever enters "mutation started" |
| `EpisodeTheorems.EffectsAtMostOnce` | src/worker/queues/index.ts:227-243 | over any history each automatic login, expired alert and active alert happens at most once per identity |
| `EpisodeTheorems.LoginsFollowMutationStarts` | src/worker/queues/index.ts:273-290 | an automatic login that happened was paid for by exactly one mutation start of that identity |
| `EpisodeTheorems.OnlyCloseOrReplayRemoves` | src/modules/bank-sessions/expiry-episodes.ts:411-424 | only a close or a replay removes an episode, and only an unclaimed or resolved one |
| `EpisodeTheorems.ResolvedExactly` | src/modules/bank-sessions/expiry-episodes.ts:358-408 | whoever acts, an episode becomes resolved exactly by the claim's holder, by an operator after manual recovery, or by an observed restoration |
| `EpisodeTheorems.GivenUpNeedsRecovery` | src/modules/bank-sessions/expiry-episodes.ts:344-363 | a lapsed claim, and a mutation its holder gives up, require manual recovery and cannot be closed |
| `EpisodeTheorems.ManualRecoveryStaysUntilResolved` | src/modules/bank-sessions/expiry-episodes.ts:376-408 | over any history, what is left for manual recovery stays so and cannot be closed until an operator or an observed restoration resolves it |
| `EpisodeTheorems.MutatedEpisodesLeaveOnlyResolved` | src/modules/bank-sessions/expiry-episodes.ts:482-490 | an episode that ever entered "mutation started" is removed or replaced only from "resolved" |
| `EpisodeTheorems.SecondAlertExactly` | src/modules/bank-sessions/index.ts:338-360 | after its alert, a re-submitted candidate is licensed to alert again exactly when the bank has no episode |
| `EpisodeTheorems.StaleCandidateAlertsTwice` | src/modules/bank-sessions/index.ts:339-367 | a concrete history in which a kept candidate alerts twice for one identity |
| `EpisodeTheorems.ResolutionsAreOneToOne` | src/modules/bank-sessions/expiry-episodes.ts:376-408 | resolutions and outbox entries stay one-to-one, with at most one per episode identity |
| `EpisodeTheorems.ManualResolutionIsAtomic` | src/modules/bank-sessions/expiry-episodes.ts:376-408 | a resolution by hand is in the episode, resolution and outbox stores together or in none of them, whatever the outbox step does; a second command on a resolved episode changes nothing |
| `EpisodeTheorems.ReplayIsGrantedOnce` | src/modules/bank-sessions/expiry-episodes.ts:411-424 | a replay is granted only on a delivered safe-to-retry resolution, and every later request of any run gets the same identifiers |
| `EpisodeTheorems.ReplayAnswersExactly` | src/modules/bank-sessions/expiry-episodes.ts:411-424 | every answer to a replay request, exactly: a first one is granted whether the resolved episode is still there or has been closed, and refused only once the bank has another one or its identifiers were used |
| `EpisodeTheorems.ReplayLeavesExactly` | src/modules/bank-sessions/expiry-episodes.ts:420-423 | a granted replay opens a new, untouched episode of the same bank, and entitles nobody to another alert |
| `EpisodeTheorems.ReplaysNeverRepeat` | src/modules/bank-sessions/expiry-episodes.ts:419-421 | over any history replay identifiers never repeat, and no resolution but that of the replayed episode itself carries them |
| `EpisodeTheorems.OutboxDeliversExactlyOnce` | src/modules/bank-sessions/manual-recovery-resolution-audit-delivery.ts:38-52 | an acknowledged entry has exactly one event in the sink, and no event occurs twice |
| `EpisodeTheorems.DeliveredIsAbsorbing` | src/modules/persistence/prisma-manual-recovery-resolution-audit-outbox-repository.ts:25-35 | an acknowledged entry never changes again and no recorded event is lost |
| `EpisodeTheorems.UndeliveredStaysClaimable` | src/modules/persistence/prisma-manual-recovery-resolution-audit-outbox-repository.ts:14-23 | an entry can be claimed exactly when it is unacknowledged and no running lease is on it, and the claimer then holds it |
| `EpisodeTheorems.OutboxMovesExactly` | src/modules/persistence/prisma-manual-recovery-resolution-audit-outbox-repository.ts:19-35 | exactly what a claim, an acknowledgement and a release make of an entry, and of no other |
| `EpisodeTheorems.OutboxLeaseHolds` | src/modules/persistence/prisma-manual-recovery-resolution-audit-outbox-repository.ts:19-23 | a claimed entry is kept from everybody else for exactly as long as was asked for |
| `EpisodeTheorems.QuietRestorationClosesExactly` | src/modules/bank-sessions/expiry-episodes.ts:212-231 | an undisturbed restoration closes exactly an unclaimed, a merely reserved, or a resolved non-scrape-time episode |
| `EpisodeTheorems.ResolvedScrapeIsNotClosed` | src/modules/bank-sessions/expiry-episodes.ts:212-231 | that exception is reached: a scrape that claims and resolves leaves an episode whose cancellation throws and whose restoration does not close it |
| `AuditSink.DeliveredOnce` | src/modules/audit/index.ts:67-71 | however often events are delivered each is kept exactly once and nothing recorded is lost |
| `AuditSink.InMemoryAuditSink.constructor` | src/modules/audit/index.ts:63-65 | the sink begins empty |
| `AuditSink.InMemoryAuditSink.Record` | src/modules/audit/index.ts:67-71 | the identifier set and the event list stay in step, and an event is appended exactly if it is new |
| `ExpiryStore.ExpiryStore.constructor` | src/modules/bank-sessions/expiry-episodes.ts:249-257 | the stores begin empty |
| `ExpiryStore.ExpiryStore.GetOrCreate` | src/modules/bank-sessions/expiry-episodes.ts:273-294 | created exactly when the bank had no episode; only the creator may alert |
| `ExpiryStore.ExpiryStore.UpdatePublication` | src/modules/bank-sessions/expiry-episodes.ts:492-503 | yes, no and throw told apart exactly, and the whole episode that a yes leaves; nothing but a yes changes anything; a started mutation is the first of its identity |
| `ExpiryStore.ExpiryStore.ReconcileTerminalFailure` | src/modules/bank-sessions/expiry-episodes.ts:425-449 | the four answers exactly; a reconciled episode is out of mutation without a live lease |
| `ExpiryStore.ExpiryStore.ResolveConsumerManualRecovery` | src/modules/bank-sessions/expiry-episodes.ts:376-408 | resolution, outbox entry and resolved episode appear together or not at all; it throws exactly for a blank claim token and a failing outbox step |
| `ExpiryStore.ExpiryStore.AuthorizeManualRecoveryReplay` | src/modules/bank-sessions/expiry-episodes.ts:411-424 | the replay outcome function exactly; an authorized replay is the bank's current episode |
| `ExpiryStore.ExpiryStore.HasReplayConflict` | src/modules/bank-sessions/expiry-episodes.ts:419 | the scan finds a conflict exactly when some resolution used one of the identifiers |
| `ExpiryStore.ExpiryStore.IsAuditDelivered` | src/modules/bank-sessions/expiry-episodes.ts:458-464 | true exactly for a marked audit of this run, whose event the sink then has |
| `ExpiryStore.ExpiryStore.MarkAuditDelivered` | src/modules/bank-sessions/expiry-episodes.ts:466-480 | marks exactly an unmarked audit of this run and clears a mere reservation |
| `ExpiryStore.ExpiryStore.Close` | src/modules/bank-sessions/expiry-episodes.ts:482-490 | closed, retained and missing told apart exactly; only the closer may alert |
| `ExpiryStore.ExpiryStore.FindClaimable` | src/modules/persistence/prisma-manual-recovery-resolution-audit-outbox-repository.ts:14-17 | the oldest entry nobody is delivering, or none exactly when there is none |
| `ExpiryStore.ExpiryStore.ClaimOutboxEntry` | src/modules/persistence/prisma-manual-recovery-resolution-audit-outbox-repository.ts:19-23 | claims exactly a claimable entry |
| `ExpiryStore.ExpiryStore.MarkDeliveredEntry` | src/modules/persistence/prisma-manual-recovery-resolution-audit-outbox-repository.ts:25-29 | acknowledges exactly for the holder |
| `ExpiryStore.ExpiryStore.ReleaseEntry` | src/modules/persistence/prisma-manual-recovery-resolution-audit-outbox-repository.ts:31-35 | releases exactly for the holder |
| `ExpiryStore.ExpiryStore.ResolveObservedEpisode` | src/modules/persistence/prisma-bank-session-authentication-attempt-repository.ts:216-217 | one row exactly when the same run's episode is resolvable by observation |
| `ExpiryProtocols.PublishExpiryEpisode` | src/modules/bank-sessions/expiry-episodes.ts:148-175 | success leaves the publication published if the episode is still there; a failed schedule is thrown, and once reported the publication is no longer in progress unreported; a quiet call publishes exactly what is free to be taken up, and finds what is published |
| `ExpiryProtocols.DeliverExpiryEpisodeAudit` | src/modules/bank-sessions/expiry-episodes.ts:179-204 | true only with the event in the sink, whatever throws and whoever interferes; a quiet delivery succeeds exactly with a sink or for an audit delivered before, and marks it |
| `ExpiryProtocols.CancelAndClose` | src/modules/bank-sessions/expiry-episodes.ts:223-230 | what is closed was current and no resolved scrape-time claim when the call began, whoever interferes; a quiet call closes everything else that can be closed |
| `ExpiryProtocols.RestoreExpiryEpisode` | src/modules/bank-sessions/expiry-episodes.ts:212-231 | "closed" means this call removed it, alone may alert, and the sink holds exactly one expired and one restored event; a resolved scrape-time claim is never closed, whoever interferes; a quiet call closes exactly an unclaimed, a merely reserved, or a resolved episode no scrape claimed |
| `ExpiryProtocols.ReconcileRestoration` | src/modules/bank-sessions/expiry-episodes.ts:233-243 | "missing or replaced" only when this exact episode is gone |
| `ExpiryProtocols.RefusedClaimStaysExplained` | src/modules/bank-sessions/expiry-publication-consumer.ts:165-174 | an envelope once current and unclaimed whose claim was refused never looks current and unclaimed again |
| `ExpiryProtocols.ReserveConsumerClaim` | src/modules/bank-sessions/expiry-publication-consumer.ts:85-112 | the "CAS failed without a durable state change" throw is unreachable under every interleaving; an acquired claim is reserved under its own token; a quiet reservation answers exactly by the envelope, the claim on the episode and the gate |
| `ExpiryProtocols.ReserveAutoLoginAttempt` | src/worker/queues/index.ts:273-290 | a reservation holds the only login ticket its identity will ever have; a quiet one succeeds exactly on an episode nobody has claimed whose publication is done or free to be taken up |
| `ExpiryProtocols.RequireManualRecovery` | src/worker/queues/index.ts:292-301 | best effort: unless the call throws, a claim under this token without a lease, as all of this path are, is not left with its mutation running; a quiet call leaves it for an operator |
| `ExpiryProtocols.RecoverExpiredSession` | src/worker/queues/index.ts:212-271 | automatic login is called at most once per identity across all workers, and only on this run's own mutation start; a quiet run logs in exactly on an episode that can be started, leaves a login that threw or was refused, or a failed recollection, for manual recovery, and closes the episode otherwise |
| `ExpiryProtocols.ReconcileExpiryTerminalObservation` | src/modules/bank-sessions/expiry-terminal-reconciliation.ts:28-36 | only a terminal observation reaches the episode, and then with the answer its state decides; anything else changes nothing |
| `ExpiryProtocols.DeliverManualRecoveryResolutionAudit` | src/modules/bank-sessions/manual-recovery-resolution-audit-delivery.ts:38-52 | an acknowledged delivery has exactly one event in the sink, across competing workers and lapsed leases; a quiet one delivers the oldest claimable entry, and nothing exactly when there is none |
| `SessionMonitor.Monitor.constructor` | src/modules/bank-sessions/index.ts:297-305 | a monitor begins with nothing remembered |
| `SessionMonitor.Monitor.TickOnce` | src/modules/bank-sessions/index.ts:307-418 | an expired or active alert is the only one its episode has had; "active" goes out only with both audits recorded exactly once, "unavailable" exactly on the first bad observation; a quiet tick alerts, remembers and follows exactly what the durable episode decides; where the code would create a closed candidate again and alert a second time the model stops with `reused` |
| `SessionMonitor.Monitor.Elect` | src/modules/bank-sessions/index.ts:338-367 | the creator of an episode alerts once; a tick is ready only with the expired event in the sink; a throw keeps the candidate; `reused` exactly when the bank has no episode and the identity was used before, where the code alerts a second time and the model stops |
| `SessionMonitor.Monitor.RestoreAndAlert` | src/modules/bank-sessions/index.ts:378-404 | the active alert goes out exactly on this monitor's own close |
| `CircuitBreaker.OpenHadABurst` | src/modules/bank-auto-login-config/breaker-policy.ts:64-83 | open implies a threshold of failures in less than one window, and the row is exactly the one at the last of them |
| `CircuitBreaker.BurstOpensExactly` | src/modules/bank-auto-login-config/breaker-policy.ts:64-88 | when a threshold of failures in less than one window opens it, as an if-and-only-if: always, unless the window it was counting in lapses inside the burst before the count is reached |
| `CircuitBreaker.ThreeOpenExactly` | src/modules/bank-auto-login-config/breaker-policy.ts:21-34 | the shipped policy: three failures in under 30 minutes leave it closed exactly when one failure was already counted in a window that covers the first of them and not the second |
| `CircuitBreaker.BurstForcesOpen` | src/modules/bank-auto-login-config/breaker-policy.ts:64-88 | for any threshold n of at least two, any 2n-2 failures in less than one window force it open |
| `CircuitBreaker.BoundIsTight` | src/modules/bank-auto-login-config/breaker-policy.ts:64-88 | the bound cannot be lowered: 2n-3 failures within a millisecond can leave it closed |
| `CircuitBreaker.ShippedPolicyBounds` | src/modules/bank-auto-login-config/breaker-policy.ts:21-34 | the shipped policy: open implies three failures in under 30 minutes, any four force it open |
| `CircuitBreaker.ThreeMayNotOpen` | src/modules/bank-auto-login-config/breaker-policy.ts:64-88 | failures at minutes 0, 29, 30 and 31 leave it closed |
| `CircuitBreaker.OnlyResetCloses` | src/modules/bank-auto-login-config/repository.ts:71-126 | over every history of failures, openings by hand and resets, the row is exactly what the failures since the last reset make it, up to the first opening by hand, which keeps count and window; only a reset closes |
| `CircuitBreaker.BreakerRepository.RecordFailure` | src/modules/bank-auto-login-config/repository.ts:71-92 | exactly one more try than there were serialization conflicts, three at most, and three conflicts change nothing; any other error is thrown at once; what is stored is one failure applied to the row the winning try began with |
| `CircuitBreaker.BreakerRepository.OpenBreaker` | src/modules/bank-auto-login-config/repository.ts:94-105 | "not configured" exactly for a missing row, otherwise the row is left open, and only an opening of its own is dated; a quiet call changes nothing else |
| `CircuitBreaker.BreakerRepository.ResetBreaker` | src/modules/bank-auto-login-config/repository.ts:107-126 | refuses an anonymous reset without effect, otherwise closes with everything cleared; a quiet call leaves the kill switch alone |
| `BrowserSemaphore.SlotsAreCounted` | src/worker/scraper/browser-runtime.ts:193-300 | over every history: active is the number of unreleased handles and within bounds, a queue means full, nobody settled waits, and every call got a slot, was throttled or is waiting |
| `BrowserSemaphore.GrantsAreFifo` | src/worker/scraper/browser-runtime.ts:258-285 | slots are handed on first come, first served among those who have not given up |
| `BrowserSemaphore.ClampNeverBites` | src/worker/scraper/browser-runtime.ts:283 | an outstanding handle keeps the count positive, so the clamp at zero never applies |
| `BrowserSemaphore.AcquireExactly` | src/worker/scraper/browser-runtime.ts:215-256 | what a call gets, exactly: a free slot if there is one, else the last place in a queue with room, else nothing; every call is counted |
| `BrowserSemaphore.TimeoutExactly` | src/worker/scraper/browser-runtime.ts:243-252 | a timer throttles exactly a waiter who still waits, and takes exactly that one out of the queue |
| `BrowserSemaphore.ReleaseExactly` | src/worker/scraper/browser-runtime.ts:258-285 | a first release hands the slot to the oldest waiter or frees exactly one, and a later one does nothing |
| `BrowserSemaphore.NoLostWakeup` | src/worker/scraper/browser-runtime.ts:258-285 | once every handle is back nothing is active and nobody is left waiting |
| `BrowserSemaphore.ReleaseIsIdempotent` | src/worker/scraper/browser-runtime.ts:259-263 | releasing twice is releasing once |
| `BrowserSemaphore.BrowserSemaphore.constructor` | src/worker/scraper/browser-runtime.ts:193-202 | a semaphore begins with every slot free |
| `BrowserSemaphore.BrowserSemaphore.AcquireSlot` | src/worker/scraper/browser-runtime.ts:215-256 | slot, throttle or waiting place exactly as specified |
| `BrowserSemaphore.BrowserSemaphore.TimeOut` | src/worker/scraper/browser-runtime.ts:243-252 | an unsettled waiter leaves the queue and is throttled, a settled one is left alone |
| `BrowserSemaphore.BrowserSemaphore.ReleaseSlot` | src/worker/scraper/browser-runtime.ts:258-285 | a first release hands the slot to the oldest waiter, or frees exactly one |
| `LockKeys.KeysAreInjective` | src/modules/bank-auto-login-lock/index.ts:82-87 | validated lock keys collide exactly for the same bank and trigger, a bare event id being its session expiry |
| `LockKeys.FencesAreApart` | src/modules/bank-auto-login-lock/redis-store.ts:139-142 | no lock key is ever a fence key, and no two locks share a fence key |
| `AutoLoginLock.FencingTokensIncrease` | src/modules/bank-auto-login-lock/redis-store.ts:45-67 | over the whole history a lock's n-th lease carries fencing token n, so tokens strictly increase across expiries |
| `AutoLoginLock.LeasesNeverOverlap` | src/modules/bank-auto-login-lock/redis-store.ts:45-67 | leases of one bank and trigger never overlap |
| `AutoLoginLock.TakenExactlyWhileLive` | src/modules/bank-auto-login-lock/redis-store.ts:51-57 | an acquire is refused exactly while a lease of that lock is live |
| `AutoLoginLock.HeldUntilExpiry` | src/modules/bank-auto-login-lock/redis-store.ts:45-116 | a lease taken or renewed is held at exactly the times before its expiry, and no longer once released |
| `AutoLoginLock.OnlyTheHolderActs` | src/modules/bank-auto-login-lock/redis-store.ts:77-116 | release and renewal with any but the current token change nothing, and with it nothing but its own entry |
| `AutoLoginLock.StaleHolderChangesNothing` | src/modules/bank-auto-login-lock/redis-store.ts:77-116 | a holder whose lease has ended can no longer release or renew anything |
| `AutoLoginLock.LockStore.constructor` | src/modules/bank-auto-login-lock/fake-redis-client.ts:12-24 | the key space begins empty |
| `AutoLoginLock.LockStore.AcquireSlot` | src/modules/bank-auto-login-lock/redis-store.ts:139-157 | the acquire script exactly, ledger included |
| `AutoLoginLock.LockStore.ReleaseIfOwner` | src/modules/bank-auto-login-lock/redis-store.ts:159-168 | the release script exactly |
| `AutoLoginLock.LockStore.RenewIfOwner` | src/modules/bank-auto-login-lock/redis-store.ts:170-181 | the renew script exactly |
| `AutoLoginLock.Acquire` | src/modules/bank-auto-login-lock/index.ts:114-125 | rejected exactly by validation; the holder is told an expiry no later than the store's, and its lease is the newest; a quiet call is refused exactly while the lock's entry exists |
| `AutoLoginLock.Release` | src/modules/bank-auto-login-lock/index.ts:126-131 | changed exactly for the current holder |
| `AutoLoginLock.Renew` | src/modules/bank-auto-login-lock/index.ts:132-139 | changed exactly for the current holder, to exactly the requested end |

## Left out

- Next.js pages, React components, middleware and polling: no durable state.
- Prisma, BullMQ, ioredis and Playwright: a statement or a script is one atomic step, and the page is a trace of raw
  fills and clicks; selectors, URL checks and browser lifecycle are not modelled.
- Cryptography: the consumer claim token (a SHA-256 digest) and the attempt trigger id are strings of the right shape,
  and random identifiers are parameters.
- Unforgeability devices (weak maps, frozen objects, exact own keys): an authority is an object that only the mint makes.
- Answers that are not well-formed are treated like a throw, as the code does; their shapes are not modelled.
- Alert text, audit metadata, email delivery and the rendered form of audit event ids: ids are kept as their parts.
- The monitor's `alert_only` mode and the audit of an unavailable browser: no durable episode is involved.
- `setManualRecoveryResolutionAuditState` in the in-memory repository: a helper that can undo a delivery; the outbox
  repository's own steps are modelled.
- Queue jobs: "published" does not imply that a job exists, since the ingestion path publishes without scheduling.
- The terminal audit written inside the SQL `reconcileTerminalFailure` transaction, and its serialization retry.
- The oldest-first order of claimable outbox entries beyond their order of creation, and clock skew between a worker
  and the database: audit and lease times are those of one clock.
- Columns that no guard reads (`createdAt` of both tables, `updatedAt` of the attempt) and 64-bit width of the
  generation, which `CounterLaw` bounds by six.
- Whitespace outside the Unicode space characters that JavaScript knows: PostgreSQL's `[:space:]` is taken to be the
  same class.
- Fractional lock durations: `PX` takes whole milliseconds, and so does the model.
- The lock client's configurable defaults: the shipped five and fifteen minutes are used.
- Environment parsing and sharing of the semaphore between modules; the breaker's `canAttempt` and `shouldOpen`, which
  only read the state that `AfterOps` describes.
- LockKeys.KeysAreInjective: the id of an attempt trigger is any 64 lowercase hex digits; that different attempts hash
  to different ids is SHA-256's business.
- FencedExecutionWitness.ALoginGoesThrough: the clock stands still and the first lease is used; what time and other
  workers do to a run is the business of the safety results.
- FencedExecutionProofs.AtMostOneClick: speaks of one attempt identity; a new run is a new row and a new login, which
  the episode ledger bounds instead.
- SessionMonitor.Monitor.TickOnce: a tick whose kept candidate was closed meanwhile ends with `reused`; the second
  creation, audit and alert that the code goes on to are not followed, because they break the uniqueness of identities
  that every other result rests on. `SecondAlertExactly` and `StaleCandidateAlertsTwice` say what happens there.
- SessionMonitor.Monitor.Elect: stops in the same case, for the same reason.
