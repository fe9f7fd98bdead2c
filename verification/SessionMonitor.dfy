// The session monitor in its durable mode: one tick observes the portal and drives the expiry episode of one bank.
// Any number of monitors run ticks against the same stores; each keeps its own fields across its own ticks.
module SessionMonitor {
  import opened Wrappers
  import opened ExpiryEpisodes
  import opened AuditSink
  import opened EpisodeSystem
  import opened EpisodeProofs
  import opened ExpiryStore
  import opened ExpiryProtocols

  datatype Status = SessionActive | SessionExpired | BrowserUnavailable

  /** What one tick told the administrators, and about which episode. */
  datatype Told = Told(expired: Option<Id>, unavailable: bool, active: Option<Id>)

  /** The alert is on the ledger once and for all, and was not there before. */
  ghost predicate AlertedOnce(before: State, after: State, effect: Effect, id: Id) {
    Occurrences(Ticket(effect, id), after.performed) == 1 && Ticket(effect, id) !in before.performed
  }

  predicate AuditedOnce(s: State, kind: AuditKind, id: Id) {
    Occurrences(SessionEvent(kind, id.bankCode, id.expiredEventId), s.events) == 1
  }

  /** A quiet audit delivery succeeds with a sink, or if it has been made before. */
  predicate Deliverable(e: Episode, hasSink: bool) { hasSink || e.expiredAudit }

  /** The publish hook throws on a quiet call exactly when it takes the publication up and cannot schedule it. */
  predicate HookFails(e: Episode, now: int, publishes: bool, schedules: bool) {
    publishes && !schedules && e.publication != Cancelled && ToBePublished(e, now)
  }

  class Monitor {
    const store: ExpiryStore
    const bankCode: string
    const hasSink: bool
    var previous: Option<Status>
    var recovery: Option<Id>
    var pending: Option<Id>

    ghost predicate Valid()
      reads this, store
    {
      && store.Valid()
      && (recovery.Some? ==> recovery.value in store.used && recovery.value.bankCode == bankCode)
      && (pending.Some? ==> pending.value.bankCode == bankCode)
    }

    constructor (store: ExpiryStore, bankCode: string, hasSink: bool)
      requires store.Valid()
      ensures Valid() && this.store == store && this.bankCode == bankCode && this.hasSink == hasSink
    {
      this.store, this.bankCode, this.hasSink := store, bankCode, hasSink;
      previous, recovery, pending := None, None, None;
    }

    /**
     * One tick with observation `status`. `uuid` names a new candidate if one is needed; `publishes` says whether the
     * publish hook is configured and `schedules` whether it can schedule. `reused` reports the one event the model
     * excludes: a candidate kept from a failed tick whose episode somebody has closed since, which the code creates
     * again and alerts about a second time.
     */
    method TickOnce(status: Status, uuid: Id, publishes: bool, proposedToken: string, schedules: bool, quiet: bool)
        returns (told: Told, reused: bool)
      requires Valid() && uuid.bankCode == bankCode
      modifies this, store
      ensures Valid() && Later(old(store.View()), store.View())
      ensures told.active.Some? ==>
                && status == SessionActive && recovery.None?
                && AlertedOnce(old(store.View()), store.View(), ActiveAlert, told.active.value)
                && AuditedOnce(store.View(), ExpiredAudit, told.active.value)
                && AuditedOnce(store.View(), RestoredAudit, told.active.value)
      ensures told.expired.Some? ==>
                status != SessionActive
                    && AlertedOnce(old(store.View()), store.View(), ExpiredAlert, told.expired.value)
      ensures told.unavailable <==> status == BrowserUnavailable && old(previous) in {None, Some(SessionActive)}
      ensures previous == Some(status) || previous == old(previous)
      ensures status == SessionActive ==> pending.None?
      ensures status == SessionActive && recovery.Some? ==> previous == old(previous)
      ensures reused ==> status != SessionActive && previous == old(previous)
      ensures quiet && status == SessionActive ==> ActedOnActive(told, old(Target()), old(store.View()), old(previous))
      ensures quiet && status != SessionActive && !reused && Nonblank(proposedToken) ==>
                if status == SessionExpired || old(pending).Some? then
                  var candidate := if old(pending).Some? then old(pending).value else uuid;
                  && (told.expired == if bankCode in old(store.episodes) then None else Some(candidate))
                  && var e := old(Durable(store.View(), candidate));
                  && Elected(e, candidate, old(store.now), publishes, schedules)
                  && previous
                     == if Settles(e, old(store.now), publishes, schedules) then Some(status) else old(previous)
                else told.expired.None? && previous == Some(status) && store.View() == old(store.View())
    {
      store.Await({}, quiet);
      ghost var observed := store.View();
      if status == SessionActive {
        reused := false;
        told := OnActive(quiet);
      } else {
        told, reused := OnInactive(status, uuid, publishes, proposedToken, schedules, quiet);
      }
      LaterTransitive(old(store.View()), observed, store.View());
    }

    /** A quiet election of this durable episode settles the transition. */
    ghost predicate Settles(e: Episode, now: int, publishes: bool, schedules: bool) {
      Deliverable(e, hasSink) && !HookFails(e, now, publishes, schedules)
    }

    /** What a quiet election leaves in the monitor: it follows the durable episode, and keeps a candidate it failed. */
    ghost predicate Elected(e: Episode, candidate: Id, now: int, publishes: bool, schedules: bool)
      reads this
    {
      && recovery == Some(e.id)
      && pending == if Deliverable(e, hasSink) && HookFails(e, now, publishes, schedules) then Some(candidate) else None
    }

    /** The episode an active observation is about: the one followed so far, or the bank's. */
    ghost function Target(): Option<Id>
      reads this, store
    {
      if recovery.Some? then recovery
      else if bankCode in store.episodes then Some(store.episodes[bankCode].id) else None
    }

    /** What a quiet active tick comes to. */
    ghost predicate ActedOnActive(told: Told, target: Option<Id>, before: State, was: Option<Status>)
      reads this
    {
      var e := if target.Some? then EpisodeAt(before, target.value) else None;
      if e.None? then told.active.None? && recovery.None? && previous == Some(SessionActive)
      else if (hasSink || (e.value.expiredAudit && e.value.restoredAudit)) && ClosedByRestoration(e.value) then
        told.active == target && recovery.None? && previous == Some(SessionActive)
      else told.active.None? && recovery == target && previous == was
    }

    /** A bad observation elects an episode when the session expired, or when an election is still owed. */
    method OnInactive(status: Status, uuid: Id, publishes: bool, proposedToken: string, schedules: bool, quiet: bool)
        returns (told: Told, reused: bool)
      requires Valid() && uuid.bankCode == bankCode && status != SessionActive
      modifies this, store
      ensures Valid() && Later(old(store.View()), store.View())
      ensures told.active.None?
      ensures told.expired.Some? ==> AlertedOnce(old(store.View()), store.View(), ExpiredAlert, told.expired.value)
      ensures told.unavailable <==> status == BrowserUnavailable && old(previous) in {None, Some(SessionActive)}
      ensures previous == Some(status) || previous == old(previous)
      ensures reused ==> previous == old(previous)
      ensures quiet && !reused && Nonblank(proposedToken) ==>
                if status == SessionExpired || old(pending).Some? then
                  var candidate := if old(pending).Some? then old(pending).value else uuid;
                  && (told.expired == if bankCode in old(store.episodes) then None else Some(candidate))
                  && var e := old(Durable(store.View(), candidate));
                  && Elected(e, candidate, old(store.now), publishes, schedules)
                  && previous
                     == if Settles(e, old(store.now), publishes, schedules) then Some(status) else old(previous)
                else told.expired.None? && previous == Some(status) && store.View() == old(store.View())
    {
      var wasBad := previous.Some? && previous.value != SessionActive;
      BookkeepingKeeps(store.View(), Elapse(0));
      var ready, elected := true, None;
      reused := false;
      if status == SessionExpired || pending.Some? {
        if pending.None? { pending := Some(uuid); }
        var candidate := pending.value;
        var created;
        ready, created, reused := Elect(candidate, publishes, proposedToken, schedules, quiet);
        if created { elected := Some(candidate); }
      }
      told := Told(elected, status != SessionExpired && !wasBad, None);
      if ready { previous := Some(status); }
    }

    /** An active observation looks up a durable episode if it has none, and tries to restore it. */
    method OnActive(quiet: bool) returns (told: Told)
      requires Valid()
      modifies this, store
      ensures Valid() && Later(old(store.View()), store.View())
      ensures told.expired.None? && !told.unavailable
      ensures told.active.Some? ==>
                && recovery.None?
                && AlertedOnce(old(store.View()), store.View(), ActiveAlert, told.active.value)
                && AuditedOnce(store.View(), ExpiredAudit, told.active.value)
                && AuditedOnce(store.View(), RestoredAudit, told.active.value)
      ensures pending.None?
      ensures previous == Some(SessionActive) || previous == old(previous)
      ensures recovery.Some? ==> previous == old(previous)
      ensures quiet ==> ActedOnActive(told, old(Target()), old(store.View()), old(previous))
    {
      pending := None;
      told := Told(None, false, None);
      BookkeepingKeeps(store.View(), Elapse(0));
      var ready := true;
      if recovery.None? {
        var lookupThrows := Fails(quiet);
        if lookupThrows {
          ready := false;
        } else {
          var found := store.FindByBankCode(bankCode);
          if found.Some? { recovery := Some(found.value.id); }
        }
      }
      var closed := true;
      if recovery.Some? {
        var restoration, alerted := RestoreAndAlert(recovery.value, quiet);
        if alerted { told := told.(active := recovery); }
        closed := restoration != RestorationRetained;
        if closed { recovery := None; }
      }
      if ready && closed { previous := Some(SessionActive); }
    }

    /** The "active" alert goes out on this monitor's own close, and on nothing else. */
    method RestoreAndAlert(id: Id, quiet: bool) returns (restoration: Restoration, alerted: bool)
      requires store.Valid() && id in store.used
      modifies store
      ensures store.Valid() && Later(old(store.View()), store.View())
      ensures alerted <==> restoration == RestorationClosed
      ensures alerted ==>
                && AlertedOnce(old(store.View()), store.View(), ActiveAlert, id)
                && AuditedOnce(store.View(), ExpiredAudit, id) && AuditedOnce(store.View(), RestoredAudit, id)
      ensures quiet ==>
                restoration
                == match old(EpisodeAt(store.View(), id))
                   case None => RestorationMissingOrReplaced
                   case Some(e) =>
                     if (hasSink || (e.expiredAudit && e.restoredAudit)) && ClosedByRestoration(e)
                     then RestorationClosed else RestorationRetained
    {
      restoration := RestoreExpiryEpisode(store, hasSink, id, {}, quiet);
      alerted := restoration == RestorationClosed;
      if alerted {
        ghost var alerting := store.View();
        store.PerformEffect(Ticket(ActiveAlert, id));
        LaterTransitive(old(store.View()), alerting, store.View());
        DistinctOccursOnce(Ticket(ActiveAlert, id), store.performed);
      }
    }

    /**
     * Elects the durable episode for a candidate, delivers its "expired" audit and runs the publish hook. A throw
     * keeps the candidate for the next tick; the "expired" alert goes out if this call created the episode. `reused`
     * says exactly that the bank has no episode and the candidate's identity was used before: the code creates the
     * episode again and alerts a second time, and the model stops.
     */
    method Elect(candidate: Id, publishes: bool, proposedToken: string, schedules: bool, quiet: bool)
        returns (ready: bool, created: bool, reused: bool)
      requires Valid() && candidate.bankCode == bankCode && pending == Some(candidate)
      modifies this, store
      ensures Valid() && Later(old(store.View()), store.View())
      ensures previous == old(previous)
      ensures pending == None || pending == Some(candidate)
      ensures reused <==> !Allowed(old(store.View()), Create(candidate))
      ensures reused ==> !ready && !created && store.View() == old(store.View()) && pending == Some(candidate)
      ensures ready ==>
                && recovery.Some?
                && SessionEvent(ExpiredAudit, bankCode, recovery.value.expiredEventId) in store.events
      ensures created ==> AlertedOnce(old(store.View()), store.View(), ExpiredAlert, candidate)
      ensures quiet && !reused && Nonblank(proposedToken) ==>
                var e := old(Durable(store.View(), candidate));
                && (created <==> bankCode !in old(store.episodes))
                && Elected(e, candidate, old(store.now), publishes, schedules)
                && (ready <==> Settles(e, old(store.now), publishes, schedules))
    {
      BookkeepingKeeps(store.View(), Elapse(0));
      ready, created, reused := false, false, false;
      var available := store.IdentityAvailable(candidate);
      if !available { return false, false, true; }
      ready, created := ElectNew(candidate, publishes, proposedToken, schedules, quiet);
    }

    method ElectNew(candidate: Id, publishes: bool, proposedToken: string, schedules: bool, quiet: bool)
        returns (ready: bool, created: bool)
      requires Valid() && candidate.bankCode == bankCode && pending == Some(candidate)
      requires Allowed(store.View(), Create(candidate))
      modifies this, store
      ensures Valid() && Later(old(store.View()), store.View())
      ensures previous == old(previous)
      ensures pending == None || pending == Some(candidate)
      ensures ready ==>
                && recovery.Some?
                && SessionEvent(ExpiredAudit, bankCode, recovery.value.expiredEventId) in store.events
      ensures created ==> AlertedOnce(old(store.View()), store.View(), ExpiredAlert, candidate)
      ensures quiet && Nonblank(proposedToken) ==>
                var e := old(Durable(store.View(), candidate));
                && (created <==> bankCode !in old(store.episodes))
                && Elected(e, candidate, old(store.now), publishes, schedules)
                && (ready <==> Settles(e, old(store.now), publishes, schedules))
    {
      ghost var start := store.View();
      var episode: Episode;
      episode, created := store.GetOrCreate(candidate);
      var replyLost := Fails(quiet);
      if replyLost { return false, false; }
      recovery := Some(episode.id);
      ghost var elected := store.View();
      ready := AuditPublishAlert(episode, created, publishes, proposedToken, schedules, quiet);
      LaterTransitive(start, elected, store.View());
    }

    /** The publish hook throws if it could not be asked, or could not schedule. */
    method Publish(id: Id, proposedToken: string, mine: set<Ticket>, schedules: bool, quiet: bool)
        returns (throws: bool)
      requires store.Valid() && mine <= store.open && id in store.used
      modifies store
      ensures store.Valid() && Later(old(store.View()), store.View()) && mine <= store.open
      ensures quiet && Nonblank(proposedToken) ==>
                (throws <==> PublishedAs(old(EpisodeAt(store.View(), id)), old(store.now), schedules).ScheduleFailed?)
    {
      var published := PublishExpiryEpisode(store, id, proposedToken, mine, schedules, quiet);
      throws := published == PublishThrew || published.ScheduleFailed?;
    }

    /** The "expired" audit and, once it is delivered, the publish hook. */
    method AuditAndPublish(episode: Episode, mine: set<Ticket>, publishes: bool, proposedToken: string,
        schedules: bool, quiet: bool)
      returns (delivered: bool, hookThrows: bool)
      requires store.Valid() && mine <= store.open && episode.id in store.used && episode.id.bankCode == bankCode
      modifies store
      ensures store.Valid() && Later(old(store.View()), store.View()) && mine <= store.open
      ensures delivered ==> SessionEvent(ExpiredAudit, bankCode, episode.id.expiredEventId) in store.events
      ensures hookThrows ==> delivered && publishes && episode.publication != Cancelled
      ensures quiet && Nonblank(proposedToken) && EpisodeAt(old(store.View()), episode.id) == Some(episode) ==>
                && (delivered <==> Deliverable(episode, hasSink))
                && (hookThrows <==> delivered && HookFails(episode, old(store.now), publishes, schedules))
    {
      AuditedPublishesAlike(episode, store.now, schedules);
      delivered := DeliverExpiryEpisodeAudit(store, hasSink, episode.id, ExpiredAudit, mine, quiet);
      hookThrows := false;
      if delivered && publishes && episode.publication != Cancelled {
        ghost var publishing := store.View();
        hookThrows := Publish(episode.id, proposedToken, mine, schedules, quiet);
        LaterTransitive(old(store.View()), publishing, store.View());
      }
    }

    method AuditPublishAlert(episode: Episode, created: bool, publishes: bool, proposedToken: string, schedules: bool,
        quiet: bool)
      returns (ready: bool)
      requires Valid() && pending.Some? && recovery == Some(episode.id) && episode.id in store.used
          && episode.id.bankCode == bankCode
      requires created ==> Ticket(ExpiredAlert, episode.id) in store.open
      modifies this`pending, store
      ensures Valid() && Later(old(store.View()), store.View())
      ensures pending == None || pending == old(pending)
      ensures ready ==> SessionEvent(ExpiredAudit, bankCode, episode.id.expiredEventId) in store.events
      ensures created ==> Occurrences(Ticket(ExpiredAlert, episode.id), store.performed) == 1
      ensures quiet && Nonblank(proposedToken) && EpisodeAt(old(store.View()), episode.id) == Some(episode) ==>
                && (ready <==> Settles(episode, old(store.now), publishes, schedules))
                && (pending == if Deliverable(episode, hasSink)
                                  && HookFails(episode, old(store.now), publishes, schedules)
                               then old(pending) else None)
    {
      var mine := if created then {Ticket(ExpiredAlert, episode.id)} else {};
      var delivered, hookThrows := AuditAndPublish(episode, mine, publishes, proposedToken, schedules, quiet);
      ready := delivered && !hookThrows;
      if !hookThrows { pending := None; }
      if created {
        ghost var alerting := store.View();
        store.PerformEffect(Ticket(ExpiredAlert, episode.id));
        LaterTransitive(old(store.View()), alerting, store.View());
        DistinctOccursOnce(Ticket(ExpiredAlert, episode.id), store.performed);
      }
    }
  }
}
