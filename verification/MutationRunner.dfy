// The runner and its fenced page as objects. The interleaved model lets their steps mix with every other worker's; here
// they run in the order the code writes them, with the repository changing underneath at every call.
module MutationRunner {
  import opened Wrappers
  import opened AttemptMachine
  import A = AttemptRow
  import opened AttemptRepository
  import opened MutationAuthority
  import opened AuthorityHandle
  import opened FencedExecution
  import opened LoginPlan

  /** What `Run` reports; a failed run also names the operator's reason. */
  datatype RunnerResult =
    | RunnerAuthenticated | RunnerRetryClaimed | RunnerRetryExhausted
    | RunnerFailed(reason: OperatorReason)
    | RunnerUnresolved

  /** The owner holds the attempt at the phase a fence is in. */
  predicate Keeps(slot: Option<A.Row>, o: A.Owner, now: int, p: HandlePhase) {
    p != Consumed && HoldsAt(slot, o, now, Believed(p))
  }

  /** The lease runs for its whole duration from now. */
  predicate FullLease(slot: Option<A.Row>, o: A.Owner, leaseMs: int, now: int) {
    slot.Some? && slot.value.ownerToken == Some(o.token) && slot.value.leaseExpiresAt == Some(now + leaseMs)
  }

  predicate SameRetries(a: Option<A.Row>, b: Option<A.Row>) {
    a.Some? && b.Some? && a.value.retryCount == b.value.retryCount
  }

  /** What an undisturbed runner reports on a decision. */
  function ReportOf(call: Call, retries: int): RunnerResult
    requires Finishes(call)
  {
    match call
    case AuthenticatedCall => RunnerAuthenticated
    case RetryCall => if retries < 2 then RunnerRetryClaimed else RunnerRetryExhausted
    case FailedCall(f) => RunnerFailed(f.operatorReason)
  }

  /** The fence a runner gives to one execution. */
  class Fence {
    const handle: ClaimedAuthority
    const repository: AttemptRepository
    var phase: HandlePhase
    var sticky: bool
    var active: bool

    /** The runner's phase is the handle's until something sticks, and what it stands for is durably recorded. */
    ghost predicate Valid()
      reads this, handle, repository
    {
      && handle.repository == repository && repository.Valid()
      && phase != Consumed && !handle.pending
      && (!sticky ==> handle.phase == phase)
      && (phase != Leased ==> Recorded(repository.slot, handle.owner, Believed(phase)))
    }

    constructor (handle: ClaimedAuthority)
      requires handle.repository.Valid() && handle.phase == Leased && !handle.pending
      ensures this.handle == handle && this.repository == handle.repository
      ensures Valid() && phase == Leased && !sticky && !active
    {
      this.handle, this.repository := handle, handle.repository;
      phase, sticky, active := Leased, false, false;
    }

    /** One operation through the gate: refused outside the execution or after a failure, and any failure sticks. */
    method Guarded(call: Call, quiet: bool) returns (authorized: bool)
      requires Valid() && !Finishes(call)
      modifies this`phase, this`sticky, handle, repository
      ensures Valid() && Later(old(repository.slot), old(repository.now), repository.slot, repository.now)
      ensures authorized ==>
                && old(active) && !old(sticky) && !sticky && Permits(old(phase), call)
                && phase == (if call.BeginCall? then InteractionStarted else if call.BarrierCall?
                    then SubmitBarrierRecorded else old(phase))
      ensures !authorized ==> phase == old(phase) && (old(active) || old(sticky) ==> sticky)
      ensures old(sticky) ==> sticky
      ensures quiet && handle.leaseMs > 0 && old(active) && !old(sticky)
              && Keeps(old(repository.slot), handle.owner, old(repository.now), old(phase)) ==>
                && (authorized <==> Permits(old(phase), call))
                && Keeps(repository.slot, handle.owner, repository.now, phase)
                && SameRetries(old(repository.slot), repository.slot)
                && (authorized ==> FullLease(repository.slot, handle.owner, handle.leaseMs, repository.now))
    {
      ghost var start := repository.slot;
      if !active || sticky { return false; }
      var threw := Fails(quiet);
      var result := handle.Run(call, quiet);
      if phase != Leased { RecordedStays(start, repository.slot, handle.owner, Believed(phase)); }
      if threw || result != HandleAuthorized {
        sticky := true;
        return false;
      }
      if call.BeginCall? { phase := InteractionStarted; }
      if call.BarrierCall? { phase := SubmitBarrierRecorded; }
      return true;
    }
  }

  /** The page a login strategy gets: every non-empty fill and every click waits for the fence. */
  class FencedPage {
    const fence: Fence
    const handle: ClaimedAuthority
    const repository: AttemptRepository
    var started: bool
    var blocked: bool
    // raw mutations that reached, or may have reached, the portal
    var fills: nat
    var clicks: nat

    ghost predicate Valid()
      reads this, fence, handle, repository
    {
      && fence.handle == handle && fence.repository == repository && fence.Valid()
      && (started ==> fills > 0)
      && (fills > 0 ==> fence.phase != Leased)
      && clicks <= 1
      && (clicks > 0 ==> fence.phase == SubmitBarrierRecorded)
    }

    /** Nothing has gone wrong: the execution runs, nothing is blocked, and the owner holds the attempt. */
    ghost predicate Steady()
      reads this, fence, handle, repository
    {
      && fence.active && !fence.sticky && !blocked && (started <==> fence.phase != Leased)
      && handle.leaseMs > 0 && Keeps(repository.slot, handle.owner, repository.now, fence.phase)
    }

    constructor (fence: Fence, aborted: bool)
      requires fence.Valid()
      ensures Valid() && this.fence == fence && this.handle == fence.handle && this.repository == fence.repository
      ensures fills == 0 && clicks == 0 && !started && blocked == aborted
    {
      this.fence, this.handle, this.repository := fence, fence.handle, fence.repository;
      started, blocked, fills, clicks := false, aborted, 0, 0;
    }

    /** A signal that is aborted, or a refusal by the fence, blocks the page and throws. */
    method Authorize(call: Call, quiet: bool) returns (authorized: bool)
      requires Valid() && !Finishes(call)
      modifies this`blocked, fence`phase, fence`sticky, handle, repository
      ensures Valid() && Later(old(repository.slot), old(repository.now), repository.slot, repository.now)
      ensures authorized ==> !old(blocked) && Permits(old(fence.phase), call)
      ensures authorized && call.BeginCall? ==> fence.phase == InteractionStarted
      ensures authorized && call.BarrierCall? ==> fence.phase == SubmitBarrierRecorded
      ensures authorized && call.RenewCall? ==> fence.phase == old(fence.phase)
      ensures !authorized ==> blocked
      ensures old(fence.sticky) ==> fence.sticky
      ensures quiet && old(Steady()) ==>
                && (authorized <==> Permits(old(fence.phase), call)) && (authorized <==> !fence.sticky)
                && (authorized ==> blocked == old(blocked))
                && Keeps(repository.slot, handle.owner, repository.now, fence.phase)
                && SameRetries(old(repository.slot), repository.slot)
    {
      var aborted := Fails(quiet);
      if blocked || aborted {
        blocked := true;
        return false;
      }
      authorized := fence.Guarded(call, quiet);
      if !authorized { blocked := true; }
    }

    /** An empty value is cleanup: it reaches the page unfenced and its failures are swallowed. */
    method Fill(value: string, quiet: bool) returns (threw: bool)
      requires Valid()
      modifies this, fence`phase, fence`sticky, handle, repository
      ensures Valid() && Later(old(repository.slot), old(repository.now), repository.slot, repository.now)
      ensures clicks == old(clicks) && old(fills) <= fills <= old(fills) + 1
      ensures value == "" ==>
                && !threw && fills == old(fills) && started == old(started) && blocked == old(blocked)
                && fence.phase == old(fence.phase) && fence.sticky == old(fence.sticky)
                && handle.phase == old(handle.phase)
                && repository.slot == old(repository.slot) && repository.now == old(repository.now)
      ensures fills > old(fills) ==>
                && value != "" && !old(blocked)
                && Recorded(repository.slot, handle.owner, CredentialsMayHaveReached)
      ensures threw ==> blocked
      ensures old(fence.sticky) ==> fence.sticky
      ensures quiet && old(Steady()) ==>
                && Steady() && !threw && SameRetries(old(repository.slot), repository.slot)
                && fills == old(fills) + (if value == "" then 0 else 1)
                && fence.phase == if value != "" && old(fence.phase) == Leased then InteractionStarted
                                  else old(fence.phase)
    {
      if value == "" {
        return false;
      }
      var authorized := Authorize(if started then RenewCall else BeginCall, quiet);
      if !authorized { return true; }
      var aborted := Fails(quiet);
      if aborted {
        blocked := true;
        return true;
      }
      fills := fills + 1;
      threw := Fails(quiet);
      if threw { blocked := true; } else { started := true; }
    }

    /** A click goes through at most once in the life of the page, on a submit barrier that is already durable. */
    method Click(quiet: bool) returns (threw: bool)
      requires Valid()
      modifies this, fence`phase, fence`sticky, handle, repository
      ensures Valid() && Later(old(repository.slot), old(repository.now), repository.slot, repository.now)
      ensures fills == old(fills) && old(clicks) <= clicks <= old(clicks) + 1
      ensures clicks > old(clicks) ==>
                && old(clicks) == 0 && !old(blocked)
                && Recorded(repository.slot, handle.owner, SubmitMayHaveBeenDispatched)
      ensures threw ==> blocked
      ensures old(fence.sticky) ==> fence.sticky
      ensures quiet && old(Steady()) ==>
                && (threw <==> old(fence.phase) != InteractionStarted) && (threw <==> fence.sticky)
                && (!threw ==> Steady() && fence.phase == SubmitBarrierRecorded && clicks == old(clicks) + 1)
                && SameRetries(old(repository.slot), repository.slot)
    {
      var authorized := Authorize(BarrierCall, quiet);
      if !authorized { return true; }
      var aborted := Fails(quiet);
      if aborted {
        blocked := true;
        return true;
      }
      clicks := clicks + 1;
      threw := Fails(quiet);
      if threw { blocked := true; }
    }
  }

  /** Where a plan has led: to the phase it reaches while it is in order, and to a failure that sticks otherwise. */
  ghost predicate LedTo(page: FencedPage, reached: Option<HandlePhase>)
    reads page, page.fence, page.handle, page.repository
  {
    match reached
    case None => page.fence.sticky
    case Some(p) => page.Steady() && page.fence.phase == p && page.clicks == ClicksAt(p)
  }

  method Perform(page: FencedPage, act: Act, quiet: bool)
    requires page.Valid()
    modifies page, page.fence`phase, page.fence`sticky, page.handle, page.repository
    ensures page.Valid()
    ensures Later(old(page.repository.slot), old(page.repository.now), page.repository.slot, page.repository.now)
    ensures old(page.fence.sticky) ==> page.fence.sticky
    ensures quiet && old(page.Steady()) ==>
              && SameRetries(old(page.repository.slot), page.repository.slot)
              && (!act.ClickAct? ==> page.clicks == old(page.clicks))
              && match act
                 case HeartbeatAct =>
                   && page.Steady() && page.fence.phase == old(page.fence.phase)
                   && FullLease(page.repository.slot, page.handle.owner, page.handle.leaseMs, page.repository.now)
                 case FillAct(value) =>
                   && page.Steady()
                   && page.fence.phase == if value != "" && old(page.fence.phase) == Leased then InteractionStarted
                                          else old(page.fence.phase)
                 case ClickAct =>
                   if old(page.fence.phase) == InteractionStarted
                   then && page.Steady() && page.fence.phase == SubmitBarrierRecorded
                        && page.clicks == old(page.clicks) + 1
                   else page.fence.sticky
  {
    match act
    case FillAct(value) => var threw := page.Fill(value, quiet);
    case ClickAct => var threw := page.Click(quiet);
    case HeartbeatAct => var beat := page.fence.Guarded(RenewCall, quiet);
  }

  /** Any strategy: any sequence of page calls, with heartbeats in between. */
  method Execute(page: FencedPage, plan: seq<Act>, quiet: bool)
    requires page.Valid() && page.clicks == 0
    modifies page, page.fence`phase, page.fence`sticky, page.handle, page.repository
    ensures page.Valid()
    ensures Later(old(page.repository.slot), old(page.repository.now), page.repository.slot, page.repository.now)
    ensures quiet && old(page.Steady()) && old(page.fence.phase) == Leased ==>
              && LedTo(page, Reached(plan))
              && (Reached(plan).Some? ==> SameRetries(old(page.repository.slot), page.repository.slot))
  {
    for i := 0 to |plan|
      invariant page.Valid()
      invariant Later(old(page.repository.slot), old(page.repository.now), page.repository.slot, page.repository.now)
      invariant quiet && old(page.Steady()) && old(page.fence.phase) == Leased ==>
                  && LedTo(page, Reached(plan[..i]))
                  && (Reached(plan[..i]).Some? ==> SameRetries(old(page.repository.slot), page.repository.slot))
    {
      ghost var before := page.repository.slot;
      assert plan[..i + 1][..i] == plan[..i];
      Perform(page, plan[i], quiet);
      A.EvolvesTransitive(old(page.repository.slot), before, page.repository.slot);
    }
    assert plan[..|plan|] == plan;
  }

  /** The last work on the gate. */
  method Finish(fence: Fence, call: Call, quiet: bool) returns (r: RunnerResult)
    requires fence.Valid() && Finishes(call)
    modifies fence.handle, fence.repository
    ensures fence.repository.Valid()
    ensures Later(old(fence.repository.slot), old(fence.repository.now), fence.repository.slot, fence.repository.now)
    ensures r == RunnerAuthenticated ==>
              && call.AuthenticatedCall?
              && Finished(fence.repository.slot, fence.handle.owner, call, HandleCompleted)
    ensures r.RunnerFailed? ==>
              call.FailedCall? && r.reason == call.failure.operatorReason
              && Finished(fence.repository.slot, fence.handle.owner, call, HandleCompleted)
    ensures r == RunnerRetryExhausted ==>
              && call.RetryCall?
              && Finished(fence.repository.slot, fence.handle.owner, call, HandleRetryExhausted)
    ensures r == RunnerRetryClaimed ==>
              && call.RetryCall?
              && Finished(fence.repository.slot, fence.handle.owner, call, HandleRetryClaimed)
    ensures old(fence.sticky) ==> r == RunnerUnresolved && fence.repository.slot == old(fence.repository.slot)
    ensures quiet && !old(fence.sticky) && FitsPhase(call, old(fence.phase))
            && Keeps(old(fence.repository.slot), fence.handle.owner, old(fence.repository.now), old(fence.phase)) ==>
              r == ReportOf(call, A.RetriesOf(old(fence.repository.slot)))
  {
    if fence.sticky { return RunnerUnresolved; }
    if call.RetryCall? {
      var retry := fence.handle.ClaimRetry(quiet);
      return if retry == HandleRetryClaimed then RunnerRetryClaimed
             else if retry == HandleRetryExhausted then RunnerRetryExhausted else RunnerUnresolved;
    }
    var completed := fence.handle.Complete(call, quiet);
    if completed != HandleCompleted { return RunnerUnresolved; }
    return if call.AuthenticatedCall? then RunnerAuthenticated else RunnerFailed(call.failure.operatorReason);
  }

  /** A call that a decision at this phase may be. */
  predicate FitsPhase(call: Call, p: HandlePhase) {
    (call.RetryCall? ==> p == Leased) && (call.FailedCall? ==> PermittedPair(call.failure))
  }

  /** What a report stands for in the row. */
  predicate Reported(slot: Option<A.Row>, o: A.Owner, r: RunnerResult, clicks: nat) {
    && (clicks == 1 ==> Recorded(slot, o, SubmitMayHaveBeenDispatched))
    && (r == RunnerAuthenticated ==>
          Finished(slot, o, AuthenticatedCall, HandleCompleted) && Recorded(slot, o, SubmitMayHaveBeenDispatched))
    && (r.RunnerFailed? ==>
          slot.Some? && slot.value.failureClass.Some?
          && Finished(slot, o, FailedCall(FailurePair(slot.value.failureClass.value, r.reason)), HandleCompleted))
    && (r == RunnerRetryExhausted ==> Finished(slot, o, RetryCall, HandleRetryExhausted))
    && (r == RunnerRetryClaimed ==> Finished(slot, o, RetryCall, HandleRetryClaimed))
  }

  /** After the execution: nothing more once a failure stuck, and otherwise the decision on the phase it reached. */
  method Conclude(fence: Fence, result: ExecutionResult, ghost clicks: nat, quiet: bool) returns (r: RunnerResult)
    requires fence.Valid() && (clicks > 0 ==> fence.phase == SubmitBarrierRecorded)
    modifies fence.handle, fence.repository
    ensures fence.repository.Valid()
    ensures Later(old(fence.repository.slot), old(fence.repository.now), fence.repository.slot, fence.repository.now)
    ensures Reported(fence.repository.slot, fence.handle.owner, r, clicks)
    ensures old(fence.sticky) ==> r == RunnerUnresolved
    ensures quiet && !old(fence.sticky)
            && Keeps(old(fence.repository.slot), fence.handle.owner, old(fence.repository.now), old(fence.phase)) ==>
              r == ReportOf(Decision(result, old(fence.phase)), A.RetriesOf(old(fence.repository.slot)))
  {
    ghost var drained, reached := fence.repository.slot, fence.phase;
    if fence.sticky {
      r := RunnerUnresolved;
    } else {
      var call := Decision(result, fence.phase);
      DecisionFitsThePhase(result, fence.phase);
      if call.FailedCall? { ClassifiableExactly(Believed(fence.phase), call.failure); }
      r := Finish(fence, call, quiet);
    }
    if reached != Leased { RecordedStays(drained, fence.repository.slot, fence.handle.owner, Believed(reached)); }
  }

  /** What an undisturbed run reports: the decision on the phase its plan reaches, if all went in order. */
  function ReportedBy(login: Login, retries: int): RunnerResult {
    var p := Reached(login.plan);
    if !login.starts || !login.stops || p.None? || p.value == Consumed then RunnerUnresolved
    else ReportOf(Decision(login.result, p.value), retries)
  }

  /** The runner on the handle it has claimed, once its heartbeat has started. */
  method RunClaimed(fence: Fence, login: Login, quiet: bool) returns (r: RunnerResult, clicks: nat)
    requires fence.Valid() && fence.phase == Leased && !fence.sticky && login.starts
    modifies fence, fence.handle, fence.repository
    ensures fence.repository.Valid() && clicks <= 1
    // A page the strategy has kept is refused everything from here on.
    ensures !fence.active
    ensures Later(old(fence.repository.slot), old(fence.repository.now), fence.repository.slot, fence.repository.now)
    ensures Reported(fence.repository.slot, fence.handle.owner, r, clicks)
    ensures !login.stops ==> r == RunnerUnresolved
    ensures quiet && fence.handle.leaseMs > 0
            && Keeps(old(fence.repository.slot), fence.handle.owner, old(fence.repository.now), Leased) ==>
              && r == ReportedBy(login, A.RetriesOf(old(fence.repository.slot)))
              && (Reached(login.plan).Some? ==> clicks == ClicksAt(Reached(login.plan).value))
  {
    fence.active := true;
    var page := new FencedPage(fence, false);
    Execute(page, login.plan, quiet);
    fence.active := false;
    if !login.stops { fence.sticky := true; }
    clicks := page.clicks;
    ghost var drained := fence.repository.slot;
    r := Conclude(fence, login.result, clicks, quiet);
    A.EvolvesTransitive(old(fence.repository.slot), drained, fence.repository.slot);
  }

  /** Nothing disturbs the run of a fresh authority: it is unclaimed, and its owner holds the attempt untouched. */
  ghost predicate Undisturbed(authority: Authority, quiet: bool)
    reads authority, authority.repository
  {
    && quiet && !authority.claimed && authority.leaseMs > 0
    && Keeps(authority.repository.slot, authority.owner, authority.repository.now, Leased)
  }

  /**
   * One run of an authority. Whatever the strategy does, at most one click goes through; "authenticated" and "failed"
   * are durable when they are reported, and an authentication was reached by a recorded submit. A heartbeat that does
   * not start keeps the strategy from running, and one that does not stop keeps its result from being reported. An
   * undisturbed run reports exactly the decision on the phase its plan reaches, and nothing if that was out of order.
   */
  method Run(authority: Authority, login: Login, quiet: bool) returns (r: RunnerResult, clicks: nat)
    requires authority.repository.Valid()
    modifies authority, authority.repository
    ensures authority.repository.Valid() && authority.claimed && clicks <= 1
    ensures Later(old(authority.repository.slot), old(authority.repository.now), authority.repository.slot,
              authority.repository.now)
    ensures Reported(authority.repository.slot, authority.owner, r, clicks)
    ensures !login.starts || !login.stops ==> r == RunnerUnresolved
    // A run whose heartbeat does not start, and a second run of the same authority, do nothing at all.
    ensures old(authority.claimed) || !login.starts ==>
              r == RunnerUnresolved && clicks == 0 && authority.repository.slot == old(authority.repository.slot)
    ensures old(Undisturbed(authority, quiet)) ==>
              && r == ReportedBy(login, A.RetriesOf(old(authority.repository.slot)))
              && (login.starts && Reached(login.plan).Some? ==> clicks == ClicksAt(Reached(login.plan).value))
  {
    var handle := authority.Claim();
    if handle == null || !login.starts { return RunnerUnresolved, 0; }
    var fence := new Fence(handle);
    r, clicks := RunClaimed(fence, login, quiet);
  }
}
