// What every interleaving over the expiry episodes keeps.
module EpisodeProofs {
  import opened Wrappers
  import opened ExpiryEpisodes
  import opened AuditSink
  import opened EpisodeSystem

  // ---- one step moves the stores forward --------------------------------------------------------------------

  lemma LaterTransitive(s: State, t: State, u: State)
    requires Later(s, t) && Later(t, u)
    ensures Later(s, u)
  {
  }

  /** Forward stores keep every resolution and every granted ticket meaningful. */
  lemma LaterCarries(s: State, t: State)
    requires Inv(s) && Later(s, t) && |t.resolutions| == |t.outboxes|
    ensures forall i :: 0 <= i < |s.resolutions| && (t.resolutions[i].replay == s.resolutions[i].replay) ==>
              ResolutionSound(t, i)
    ensures forall k :: k in s.granted ==> TicketSound(t, k)
    ensures forall i :: 0 <= i < |s.outboxes| && t.outboxes[i] == s.outboxes[i] ==> OutboxSound(t, i)
  {
    forall i | 0 <= i < |s.resolutions| && t.resolutions[i].replay == s.resolutions[i].replay
      ensures ResolutionSound(t, i)
    {
      assert ResolutionSound(s, i) && ResolutionLater(s.resolutions[i], t.resolutions[i]);
    }
    forall k | k in s.granted ensures TicketSound(t, k) { assert TicketSound(s, k); }
    forall i | 0 <= i < |s.outboxes| && t.outboxes[i] == s.outboxes[i] ensures OutboxSound(t, i) {
      assert OutboxSound(s, i);
    }
  }

  /** The current episode of a bank moved forward in place. */
  lemma InPlaceKeeps(s: State, f: Episode)
    requires Inv(s) && Current(s, f.id) && WellFormed(f) && EvolvesTo(s.episodes[f.id.bankCode], f)
    requires f.expiredAudit ==> SessionEvent(ExpiredAudit, f.id.bankCode, f.id.expiredEventId) in s.events
    requires f.restoredAudit ==> SessionEvent(RestoredAudit, f.id.bankCode, f.id.expiredEventId) in s.events
    ensures Inv(With(s, f)) && Later(s, With(s, f))
  {
    LaterCarries(s, With(s, f));
  }

  lemma GrantKeeps(s: State, t: Ticket)
    requires Inv(s) && t !in s.granted && TicketSound(s, t)
    ensures Inv(Grant(s, t)) && Later(s, Grant(s, t))
  {
    LaterCarries(s, Grant(s, t));
  }

  lemma BornKeeps(s: State, id: Id)
    requires Inv(s) && Unused(s, id)
    ensures Inv(Born(s, id)) && Later(s, Born(s, id))
  {
    LaterCarries(s, Born(s, id));
  }

  lemma CreateKeeps(s: State, id: Id)
    requires Inv(s) && Allowed(s, Create(id))
    ensures Inv(OnCreate(s, id)) && Later(s, OnCreate(s, id))
  {
    if id.bankCode !in s.episodes {
      BornKeeps(s, id);
      assert Ticket(ExpiredAlert, id) in s.granted ==> TicketSound(s, Ticket(ExpiredAlert, id));
      GrantKeeps(Born(s, id), Ticket(ExpiredAlert, id));
      LaterTransitive(s, Born(s, id), OnCreate(s, id));
    }
  }

  lemma CheckedUpdateEvolves(op: Op, e: Episode, now: int)
    requires WellFormed(e) && Accepted(op) && UpdatePublication(op, e, now).Updated?
    ensures var f := UpdatePublication(op, e, now).episode;
            WellFormed(f) && EvolvesTo(e, f) && f.expiredAudit == e.expiredAudit && f.restoredAudit == e.restoredAudit
    ensures StartsMutation(op) ==>
              e.attempt == Some(Reserved) && UpdatePublication(op, e, now).episode.attempt == Some(MutationStarted)
  {
  }

  lemma ApplyKeeps(s: State, id: Id, op: Op)
    requires Inv(s)
    ensures Inv(OnApply(s, id, op)) && Later(s, OnApply(s, id, op))
  {
    if Accepted(op) && Current(s, id) && UpdatePublication(op, s.episodes[id.bankCode], s.now).Updated? {
      var f := UpdatePublication(op, s.episodes[id.bankCode], s.now).episode;
      CheckedUpdateEvolves(op, s.episodes[id.bankCode], s.now);
      InPlaceKeeps(s, f);
      if StartsMutation(op) {
        // A login ticket granted before would mean the attempt had already left "reserved".
        assert Ticket(AutoLogin, id) in s.granted ==> TicketSound(s, Ticket(AutoLogin, id));
        GrantKeeps(With(s, f), Ticket(AutoLogin, id));
        LaterTransitive(s, With(s, f), OnApply(s, id, op));
      }
    }
  }

  lemma ReconcileTerminalKeeps(s: State, id: Id, token: string, reason: FailureReason, at: int)
    requires Inv(s)
    ensures Inv(OnReconcileTerminal(s, id, token, reason, at))
              && Later(s, OnReconcileTerminal(s, id, token, reason, at))
  {
    if Current(s, id) && ReconcileTerminalResult(s.episodes[id.bankCode], token, reason, s.now) == Reconciled {
      UncheckedUpdatesKeepWellFormed(s.episodes[id.bankCode], id, s.now);
      InPlaceKeeps(s, ReconcileTerminal(s.episodes[id.bankCode], reason, at, s.now));
    }
  }

  /** The new resolution and its outbox entry are written together. */
  lemma AppendResolutionKeeps(s: State, id: Id, d: Decision)
    requires Inv(s) && Current(s, id) && s.episodes[id.bankCode].attempt == Some(Resolved)
    requires s.episodes[id.bankCode].publication == Published
    requires forall i :: 0 <= i < |s.resolutions| ==> s.resolutions[i].episode != id
    ensures Inv(WithResolution(s, id, d)) && Later(s, WithResolution(s, id, d))
  {
    var t := WithResolution(s, id, d);
    LaterCarries(s, t);
    assert ResolutionSound(t, |s.resolutions|) && OutboxSound(t, |s.outboxes|);
  }

  /** An earlier resolution of the current episode would mean it is already resolved. */
  lemma UnresolvedHasNoResolution(s: State, id: Id)
    requires Inv(s) && Current(s, id) && s.episodes[id.bankCode].attempt != Some(Resolved)
    ensures forall i :: 0 <= i < |s.resolutions| ==> s.resolutions[i].episode != id
  {
    forall i | 0 <= i < |s.resolutions| ensures s.resolutions[i].episode != id { assert ResolutionSound(s, i); }
  }

  lemma ManualResolutionKeeps(s: State, id: Id)
    requires Inv(s) && Current(s, id) && s.episodes[id.bankCode].attempt == Some(ManualRecoveryRequired)
    ensures var m := With(s, ResolveManually(s.episodes[id.bankCode], s.now));
            Inv(m) && Later(s, m) && forall i :: 0 <= i < |m.resolutions| ==> m.resolutions[i].episode != id
  {
    UncheckedUpdatesKeepWellFormed(s.episodes[id.bankCode], id, s.now);
    InPlaceKeeps(s, ResolveManually(s.episodes[id.bankCode], s.now));
    UnresolvedHasNoResolution(s, id);
  }

  lemma ResolveManualKeeps(s: State, id: Id, token: string, claim: string, d: Decision, fails: bool)
    requires Inv(s)
    ensures Inv(OnResolveManual(s, id, token, claim, d, fails))
              && Later(s, OnResolveManual(s, id, token, claim, d, fails))
  {
    if ManuallyResolvable(s, id, token, claim) && !fails {
      var m := With(s, ResolveManually(s.episodes[id.bankCode], s.now));
      ManualResolutionKeeps(s, id);
      AppendResolutionKeeps(m, id, d);
      LaterTransitive(s, m, OnResolveManual(s, id, token, claim, d, fails));
    }
  }

  lemma ReplayRecordedKeeps(s: State, n: nat, r: Replay)
    requires Inv(s) && 1 <= n <= |s.resolutions| && s.resolutions[n - 1].replay.None?
    requires s.resolutions[n - 1].decision == SafeToRetry && s.outboxes[n - 1].state == OutboxDelivered
    ensures var t := s.(resolutions := s.resolutions[n - 1 := s.resolutions[n - 1].(replay := Some(r))]);
            Inv(t) && Later(s, t)
  {
    var t := s.(resolutions := s.resolutions[n - 1 := s.resolutions[n - 1].(replay := Some(r))]);
    LaterCarries(s, t);
    assert ResolutionSound(s, n - 1);
    assert ResolutionSound(t, n - 1);
  }

  lemma AuthorizeReplayKeeps(s: State, n: nat, r: Replay)
    requires Inv(s) && Allowed(s, AuthorizeReplay(n, r))
    ensures Inv(OnAuthorizeReplay(s, n, r)) && Later(s, OnAuthorizeReplay(s, n, r))
  {
    if ReplayOutcome(s, n, r).ReplayAuthorized? {
      var b := Born(s, ReplayId(s.resolutions[n - 1], r));
      BornKeeps(s, ReplayId(s.resolutions[n - 1], r));
      ReplayRecordedKeeps(b, n, r);
      LaterTransitive(s, b, OnAuthorizeReplay(s, n, r));
    }
  }

  lemma ObservedRestorationKeeps(s: State, bank: string, run: string)
    requires Inv(s)
    ensures Inv(OnObservedRestoration(s, bank, run)) && Later(s, OnObservedRestoration(s, bank, run))
  {
    if bank in s.episodes && s.episodes[bank].id.runId == run && ObservedResolvable(s.episodes[bank], s.now) {
      UncheckedUpdatesKeepWellFormed(s.episodes[bank], s.episodes[bank].id, s.now);
      InPlaceKeeps(s, ResolveObserved(s.episodes[bank], s.now));
      assert OnObservedRestoration(s, bank, run) == With(s, ResolveObserved(s.episodes[bank], s.now));
    }
  }

  lemma MarkDeliveredKeeps(s: State, bank: string, run: string, kind: AuditKind)
    requires Inv(s) && Allowed(s, MarkDelivered(bank, run, kind))
    ensures Inv(OnMarkDelivered(s, bank, run, kind)) && Later(s, OnMarkDelivered(s, bank, run, kind))
  {
    if Markable(s, bank, run, kind) {
      UncheckedUpdatesKeepWellFormed(s.episodes[bank], s.episodes[bank].id, s.now);
      InPlaceKeeps(s, MarkAudit(s.episodes[bank], kind));
      assert OnMarkDelivered(s, bank, run, kind) == With(s, MarkAudit(s.episodes[bank], kind));
    }
  }

  lemma CloseKeeps(s: State, id: Id)
    requires Inv(s)
    ensures Inv(OnClose(s, id)) && Later(s, OnClose(s, id))
  {
    if Closable(s, id) {
      var m := Without(s, id.bankCode);
      LaterCarries(s, m);
      assert Ticket(ActiveAlert, id) in s.granted ==> TicketSound(s, Ticket(ActiveAlert, id));
      GrantKeeps(m, Ticket(ActiveAlert, id));
      LaterTransitive(s, m, OnClose(s, id));
    }
  }

  lemma SetOutboxKeeps(s: State, n: nat, o: Outbox)
    requires Inv(s) && KnownOutbox(s, n) && s.outboxes[n - 1].state != OutboxDelivered
    requires OutboxSound(SetOutbox(s, n, o), n - 1)
    ensures Inv(SetOutbox(s, n, o)) && Later(s, SetOutbox(s, n, o))
  {
    LaterCarries(s, SetOutbox(s, n, o));
    assert OutboxSound(s, n - 1);
  }

  lemma OutboxStepKeeps(s: State, step: Step)
    requires Inv(s) && Allowed(s, step)
    requires step.ClaimOutbox? || step.MarkOutboxDelivered? || step.ReleaseOutbox?
    ensures Inv(Do(s, step)) && Later(s, Do(s, step))
  {
    if KnownOutbox(s, step.resolution) {
      assert OutboxSound(s, step.resolution - 1);
      var t := Do(s, step);
      if t != s { SetOutboxKeeps(s, step.resolution, t.outboxes[step.resolution - 1]); }
      else { LaterCarries(s, s); }
    }
  }

  /** Steps of the clock, the sink and the ledger. */
  lemma BookkeepingKeeps(s: State, step: Step)
    requires Inv(s) && Allowed(s, step)
    requires step.Elapse? || step.Record? || step.Perform?
    ensures Inv(Do(s, step)) && Later(s, Do(s, step))
  {
    LaterCarries(s, Do(s, step));
  }

  lemma StepKeepsInv(s: State, step: Step)
    requires Inv(s)
    ensures Inv(Next(s, step)) && Later(s, Next(s, step))
  {
    if Allowed(s, step) {
      match step
      case Create(id) => CreateKeeps(s, id);
      case Apply(id, op) => ApplyKeeps(s, id, op);
      case ReconcileTerminalFailure(id, token, reason, at) => ReconcileTerminalKeeps(s, id, token, reason, at);
      case ResolveManualRecovery(id, token, claim, d, fails) => ResolveManualKeeps(s, id, token, claim, d, fails);
      case AuthorizeReplay(n, r) => AuthorizeReplayKeeps(s, n, r);
      case ObservedRestoration(bank, run) => ObservedRestorationKeeps(s, bank, run);
      case MarkDelivered(bank, run, kind) => MarkDeliveredKeeps(s, bank, run, kind);
      case Close(id) => CloseKeeps(s, id);
      case Elapse(_) => BookkeepingKeeps(s, step);
      case Record(_) => BookkeepingKeeps(s, step);
      case Perform(_) => BookkeepingKeeps(s, step);
      case _ => OutboxStepKeeps(s, step);
    }
  }

  /** A ticket stays open until it is performed. */
  lemma OthersKeepTickets(s: State, step: Step, mine: set<Ticket>)
    requires mine <= s.open && !(step.Perform? && step.ticket in mine)
    ensures mine <= Next(s, step).open
  {
  }

  lemma {:induction false} RunKeepsInv(start: int, steps: seq<Step>)
    ensures Inv(Run(start, steps))
  {
    if steps != [] {
      RunKeepsInv(start, steps[..|steps| - 1]);
      StepKeepsInv(Run(start, steps[..|steps| - 1]), steps[|steps| - 1]);
    }
  }

  lemma {:induction false} RunLater(start: int, steps: seq<Step>, k: nat)
    requires k <= |steps|
    ensures Later(Run(start, steps[..k]), Run(start, steps))
    decreases |steps|
  {
    if k == |steps| {
      assert steps[..k] == steps;
    } else {
      var before := steps[..|steps| - 1];
      assert before[..k] == steps[..k];
      RunLater(start, before, k);
      RunKeepsInv(start, before);
      StepKeepsInv(Run(start, before), steps[|steps| - 1]);
      LaterTransitive(Run(start, steps[..k]), Run(start, before), Run(start, steps));
    }
  }
}
