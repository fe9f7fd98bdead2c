// The lock itself: three atomic scripts on one shared key space with native expiry, every history of them by any number
// of clients, and the client object that validates, names and times its calls.
module AutoLoginLock {
  import opened Wrappers
  import opened LockKeys

  /** A lock entry expires by itself; a counter never does. */
  datatype Value = Entry(token: string, fencing: nat, expiresAt: int) | Counter(count: nat)

  type Keyspace = map<string, Value>

  const MINUTE := 60 * 1000
  const DEFAULT_LOCK_TTL_MS := 5 * MINUTE
  const MAX_LOCK_TTL_MS := 15 * MINUTE

  // ---- the scripts ------------------------------------------------------------------------------------------

  /** A key exists until its expiry, if it has one. */
  predicate Exists(db: Keyspace, key: string, now: int) { key in db && (db[key].Entry? ==> now < db[key].expiresAt) }

  /** What INCR makes of a key: absent counts from nothing, and a lock entry is not a number. */
  function Incremented(db: Keyspace, key: string, now: int): Option<nat> {
    if !Exists(db, key, now) then Some(1)
    else match db[key] case Counter(n) => Some(n + 1) case Entry(_, _, _) => None
  }

  /** A lock by the names of its entry and of its counter. */
  datatype Lock = Lock(key: string, fence: string)

  function LockOf(bankCode: string, t: Trigger): Lock {
    Lock(BuildLockKey(bankCode, t), FenceKey(BuildLockKey(bankCode, t)))
  }

  /** The fencing token granted, if any, and the keys after. A script that fails on INCR has written nothing. */
  function AcquireScript(db: Keyspace, lock: Lock, token: string, ttl: int, now: int): (Option<nat>, Keyspace) {
    if Exists(db, lock.key, now) then (None, db)
    else
      match Incremented(db, lock.fence, now)
      case None => (None, db)
      case Some(n) => (Some(n), db[lock.fence := Counter(n)][lock.key := Entry(token, n, now + ttl)])
  }

  predicate OwnedBy(db: Keyspace, key: string, token: string, now: int) {
    Exists(db, key, now) && db[key].Entry? && db[key].token == token
  }

  function ReleaseScript(db: Keyspace, key: string, token: string, now: int): (bool, Keyspace) {
    if OwnedBy(db, key, token, now) then (true, db - {key}) else (false, db)
  }

  function RenewScript(db: Keyspace, key: string, token: string, ttl: int, now: int): (bool, Keyspace) {
    if OwnedBy(db, key, token, now) then (true, db[key := db[key].(expiresAt := now + ttl)]) else (false, db)
  }

  // ---- histories --------------------------------------------------------------------------------------------

  /** A lease that was granted: it is live from `from` until just before `until`. */
  datatype Lease = Lease(lock: Lock, token: string, fencing: nat, from: int, until: int)

  datatype State = State(db: Keyspace, now: int, leases: seq<Lease>)

  datatype Step =
    | Elapse(ms: nat)
    | Acquire(bankCode: string, trigger: Trigger, token: string, ttl: int)
    | Release(bankCode: string, trigger: Trigger, token: string)
    | Renew(bankCode: string, trigger: Trigger, token: string, ttl: int)

  predicate ValidTtl(ttl: int) { 0 < ttl <= MAX_LOCK_TTL_MS }

  /** A call that passed the client's validation; any other never reaches the store. */
  predicate Accepted(step: Step) {
    step.Elapse? ||
    (&& IsBankCode(step.bankCode) && IsTrigger(step.trigger)
     && (step.Acquire? || step.token != "")
     && (step.Release? || ValidTtl(step.ttl)))
  }

  predicate Live(l: Lease, now: int) { now < l.until }

  /** The live lease of a key now ends at another time. */
  function Retimed(leases: seq<Lease>, lock: Lock, now: int, until: int): (r: seq<Lease>)
    ensures |r| == |leases|
    ensures forall i :: 0 <= i < |r| ==>
              r[i] == if leases[i].lock == lock && Live(leases[i], now) then leases[i].(until := until) else leases[i]
  {
    seq(|leases|, i requires 0 <= i < |leases| =>
      if leases[i].lock == lock && Live(leases[i], now) then leases[i].(until := until) else leases[i])
  }

  function OnAcquire(s: State, lock: Lock, token: string, ttl: int): State {
    match AcquireScript(s.db, lock, token, ttl, s.now)
    case (None, _) => s
    case (Some(n), db) => s.(db := db, leases := s.leases + [Lease(lock, token, n, s.now, s.now + ttl)])
  }

  function OnRelease(s: State, lock: Lock, token: string): State {
    match ReleaseScript(s.db, lock.key, token, s.now)
    case (false, _) => s
    case (true, db) => s.(db := db, leases := Retimed(s.leases, lock, s.now, s.now))
  }

  function OnRenew(s: State, lock: Lock, token: string, ttl: int): State {
    match RenewScript(s.db, lock.key, token, ttl, s.now)
    case (false, _) => s
    case (true, db) => s.(db := db, leases := Retimed(s.leases, lock, s.now, s.now + ttl))
  }

  function Next(s: State, step: Step): State {
    if !Accepted(step) then s
    else
      match step
      case Elapse(ms) => s.(now := s.now + ms)
      case Acquire(b, t, token, ttl) => OnAcquire(s, LockOf(b, t), token, ttl)
      case Release(b, t, token) => OnRelease(s, LockOf(b, t), token)
      case Renew(b, t, token, ttl) => OnRenew(s, LockOf(b, t), token, ttl)
  }

  function Run(start: int, steps: seq<Step>): State {
    if steps == [] then State(map[], start, []) else Next(Run(start, steps[..|steps| - 1]), steps[|steps| - 1])
  }

  // ---- invariant --------------------------------------------------------------------------------------------

  /** How many leases a lock has had. */
  function Granted(leases: seq<Lease>, lock: Lock): nat {
    if leases == [] then 0
    else Granted(leases[..|leases| - 1], lock) + if leases[|leases| - 1].lock == lock then 1 else 0
  }

  function CountAt(db: Keyspace, fence: string): nat {
    if fence in db && db[fence].Counter? then db[fence].count else 0
  }

  /** Locks whose entries never collide with a counter, and which share neither entry nor counter. */
  ghost predicate Apart(locks: iset<Lock>) {
    forall k, o :: k in locks && o in locks ==>
        && k.key != o.fence && (k.fence == o.fence ==> k == o)
        && (k.key == o.key ==> k == o)
  }

  /** Under its own names a lock has an entry and a count, and the count is the number of leases so far. */
  predicate KeySound(db: Keyspace, leases: seq<Lease>, lock: Lock) {
    && (lock.key in db ==> db[lock.key].Entry?)
    && (lock.fence in db ==> db[lock.fence].Counter?)
    && CountAt(db, lock.fence) == Granted(leases, lock)
  }

  /** The n-th lease of a lock carries fencing token n. */
  predicate Numbered(leases: seq<Lease>) { forall i :: 0 <= i < |leases| ==> NumberedAt(leases, i) }

  predicate NumberedAt(leases: seq<Lease>, i: nat)
    requires i < |leases|
  {
    leases[i].fencing == Granted(leases[..i], leases[i].lock) + 1
  }

  /** Leases of one lock follow one another. */
  predicate Disjoint(leases: seq<Lease>) {
    forall i, j :: 0 <= i < j < |leases| && leases[i].lock == leases[j].lock ==> leases[i].until <= leases[j].from
  }

  /** A live lease is the entry stored under its lock's name. */
  predicate Stored(db: Keyspace, now: int, l: Lease) {
    Live(l, now) ==> l.lock.key in db && db[l.lock.key] == Entry(l.token, l.fencing, l.until)
  }

  predicate Begun(now: int, l: Lease) { l.from <= now && l.from <= l.until }

  /** An entry that has not expired belongs to a live lease. */
  ghost predicate Backed(s: State, lock: Lock) {
    Exists(s.db, lock.key, s.now) ==>
      exists i :: 0 <= i < |s.leases| && s.leases[i].lock == lock && Live(s.leases[i], s.now)
  }

  ghost predicate LocksSound(locks: iset<Lock>, s: State) {
    forall k :: k in locks ==> KeySound(s.db, s.leases, k) && Backed(s, k)
  }

  ghost predicate LeasesSound(locks: iset<Lock>, s: State) {
    forall i :: 0 <= i < |s.leases| ==>
        && s.leases[i].lock in locks && Begun(s.now, s.leases[i])
        && Stored(s.db, s.now, s.leases[i])
  }

  ghost predicate Inv(locks: iset<Lock>, s: State) {
    LocksSound(locks, s) && LeasesSound(locks, s) && Numbered(s.leases) && Disjoint(s.leases)
  }

  // ---- what every step keeps --------------------------------------------------------------------------------

  lemma {:induction false} SameLocksSameCount(a: seq<Lease>, b: seq<Lease>, lock: Lock)
    requires |a| == |b| && forall i :: 0 <= i < |a| ==> a[i].lock == b[i].lock
    ensures Granted(a, lock) == Granted(b, lock)
    decreases |a|
  {
    if a != [] { SameLocksSameCount(a[..|a| - 1], b[..|b| - 1], lock); }
  }

  lemma ElapseKeeps(locks: iset<Lock>, s: State, ms: nat)
    requires Inv(locks, s)
    ensures Inv(locks, s.(now := s.now + ms))
  {
  }

  /** A free lock is granted the next number. */
  lemma GrantIsNumbered(locks: iset<Lock>, s: State, lock: Lock, token: string, ttl: int)
    requires Apart(locks) && Inv(locks, s) && lock in locks && !Exists(s.db, lock.key, s.now)
    ensures var n := Granted(s.leases, lock) + 1;
            AcquireScript(s.db, lock, token, ttl, s.now)
            == (Some(n), s.db[lock.fence := Counter(n)][lock.key := Entry(token, n, s.now + ttl)])
  {
  }

  /** The script's outcomes, one by one. */
  lemma AcquireCases(s: State, lock: Lock, token: string, ttl: int)
    ensures var n, t := Incremented(s.db, lock.fence, s.now), OnAcquire(s, lock, token, ttl);
            if Exists(s.db, lock.key, s.now) || n.None? then
              t == s && AcquireScript(s.db, lock, token, ttl, s.now).0 == None
            else
              && AcquireScript(s.db, lock, token, ttl, s.now).0 == n
              && t == State(s.db[lock.fence := Counter(n.value)][lock.key := Entry(token, n.value, s.now + ttl)], s.now,
                            s.leases + [Lease(lock, token, n.value, s.now, s.now + ttl)])
  {
  }

  lemma NumberedAppend(leases: seq<Lease>, l: Lease)
    requires Numbered(leases) && l.fencing == Granted(leases, l.lock) + 1
    ensures Numbered(leases + [l])
  {
    assert (leases + [l])[..|leases|] == leases;
    forall i | 0 <= i < |leases| ensures NumberedAt(leases + [l], i) {
      assert NumberedAt(leases, i) && (leases + [l])[..i] == leases[..i];
    }
  }

  /** No lease of a free lock is live. */
  lemma FreeMeansEnded(locks: iset<Lock>, s: State, lock: Lock, i: nat)
    requires Inv(locks, s) && !Exists(s.db, lock.key, s.now) && i < |s.leases| && s.leases[i].lock == lock
    ensures s.leases[i].until <= s.now
  {
  }

  lemma GrantKeepsLocks(locks: iset<Lock>, s: State, lock: Lock, token: string, ttl: int)
    requires Apart(locks) && Inv(locks, s) && lock in locks && !Exists(s.db, lock.key, s.now) && ttl > 0
    ensures LocksSound(locks, OnAcquire(s, lock, token, ttl))
  {
  }

  lemma GrantKeepsOrder(locks: iset<Lock>, s: State, lock: Lock, l: Lease)
    requires Inv(locks, s) && !Exists(s.db, lock.key, s.now) && l.lock == lock && l.from == s.now
    ensures Disjoint(s.leases + [l])
  {
  }

  lemma GrantKeepsLeases(locks: iset<Lock>, s: State, lock: Lock, token: string, ttl: int)
    requires Apart(locks) && Inv(locks, s) && lock in locks && !Exists(s.db, lock.key, s.now) && ttl > 0
    ensures LeasesSound(locks, OnAcquire(s, lock, token, ttl))
  {
  }

  lemma GrantAppends(locks: iset<Lock>, s: State, lock: Lock, token: string, ttl: int)
    requires Apart(locks) && Inv(locks, s) && lock in locks && !Exists(s.db, lock.key, s.now)
    ensures OnAcquire(s, lock, token, ttl).leases
            == s.leases + [Lease(lock, token, Granted(s.leases, lock) + 1, s.now, s.now + ttl)]
  {
  }

  lemma GrantKeepsSequence(locks: iset<Lock>, s: State, lock: Lock, token: string, ttl: int)
    requires Apart(locks) && Inv(locks, s) && lock in locks && !Exists(s.db, lock.key, s.now)
    ensures Numbered(OnAcquire(s, lock, token, ttl).leases) && Disjoint(OnAcquire(s, lock, token, ttl).leases)
  {
    var l := Lease(lock, token, Granted(s.leases, lock) + 1, s.now, s.now + ttl);
    GrantAppends(locks, s, lock, token, ttl);
    NumberedAppend(s.leases, l);
    GrantKeepsOrder(locks, s, lock, l);
  }

  lemma AcquireKeeps(locks: iset<Lock>, s: State, lock: Lock, token: string, ttl: int)
    requires Apart(locks) && Inv(locks, s) && lock in locks && ttl > 0
    ensures Inv(locks, OnAcquire(s, lock, token, ttl))
  {
    if Exists(s.db, lock.key, s.now) {
      assert OnAcquire(s, lock, token, ttl) == s;
    } else {
      GrantKeepsSequence(locks, s, lock, token, ttl);
      GrantKeepsLocks(locks, s, lock, token, ttl);
      GrantKeepsLeases(locks, s, lock, token, ttl);
    }
  }

  lemma NumberedRetimed(leases: seq<Lease>, lock: Lock, now: int, until: int)
    requires Numbered(leases)
    ensures Numbered(Retimed(leases, lock, now, until))
  {
    var r := Retimed(leases, lock, now, until);
    forall i | 0 <= i < |r| ensures NumberedAt(r, i) {
      assert NumberedAt(leases, i);
      SameLocksSameCount(r[..i], leases[..i], r[i].lock);
    }
  }

  /** What the script made of the lock: its entry is gone, or ends at another time. */
  predicate Rewritten(db: Keyspace, after: Keyspace, key: string, now: int, until: int) {
    && key in db && db[key].Entry?
    && (if until == now then after == db - {key} else after == db[key := db[key].(expiresAt := until)])
  }

  lemma RetimeKeepsLock(locks: iset<Lock>, s: State, db: Keyspace, lock: Lock, until: int, k: Lock)
    requires Apart(locks) && Inv(locks, s) && lock in locks && Exists(s.db, lock.key, s.now)
    requires s.now <= until && Rewritten(s.db, db, lock.key, s.now, until) && k in locks
    ensures var t := s.(db := db, leases := Retimed(s.leases, lock, s.now, until));
            KeySound(t.db, t.leases, k) && Backed(t, k)
  {
    var r := Retimed(s.leases, lock, s.now, until);
    SameLocksSameCount(r, s.leases, k);
    assert KeySound(s.db, s.leases, k) && Backed(s, k);
    if Exists(db, k.key, s.now) {
      var i :| 0 <= i < |s.leases| && s.leases[i].lock == k && Live(s.leases[i], s.now);
      assert r[i].lock == k && Live(r[i], s.now);
    }
  }

  lemma RetimeKeepsLease(locks: iset<Lock>, s: State, db: Keyspace, lock: Lock, until: int, i: nat)
    requires Apart(locks) && Inv(locks, s) && lock in locks && i < |s.leases|
    requires s.now <= until && Rewritten(s.db, db, lock.key, s.now, until)
    ensures var l := Retimed(s.leases, lock, s.now, until)[i]; Begun(s.now, l) && Stored(db, s.now, l)
  {
  }

  lemma RetimeKeepsOrder(locks: iset<Lock>, s: State, lock: Lock, until: int)
    requires Inv(locks, s)
    ensures Disjoint(Retimed(s.leases, lock, s.now, until))
  {
  }

  /** The live lease of a lock is released, or renewed. */
  lemma RetimeKeeps(locks: iset<Lock>, s: State, db: Keyspace, lock: Lock, until: int)
    requires Apart(locks) && Inv(locks, s) && lock in locks && Exists(s.db, lock.key, s.now)
    requires s.now <= until && Rewritten(s.db, db, lock.key, s.now, until)
    ensures Inv(locks, s.(db := db, leases := Retimed(s.leases, lock, s.now, until)))
  {
    var t := s.(db := db, leases := Retimed(s.leases, lock, s.now, until));
    NumberedRetimed(s.leases, lock, s.now, until);
    RetimeKeepsOrder(locks, s, lock, until);
    assert LocksSound(locks, t) by {
      forall k | k in locks ensures KeySound(t.db, t.leases, k) && Backed(t, k) {
        RetimeKeepsLock(locks, s, db, lock, until, k);
      }
    }
    assert LeasesSound(locks, t) by {
      forall i | 0 <= i < |t.leases|
        ensures t.leases[i].lock in locks && Begun(t.now, t.leases[i]) && Stored(t.db, t.now, t.leases[i])
      {
        RetimeKeepsLease(locks, s, db, lock, until, i);
      }
    }
  }

  lemma ReleaseKeeps(locks: iset<Lock>, s: State, lock: Lock, token: string)
    requires Apart(locks) && Inv(locks, s) && lock in locks
    ensures Inv(locks, OnRelease(s, lock, token))
  {
    if OwnedBy(s.db, lock.key, token, s.now) { RetimeKeeps(locks, s, s.db - {lock.key}, lock, s.now); }
  }

  lemma RenewRewrites(s: State, lock: Lock, token: string, ttl: int)
    requires OwnedBy(s.db, lock.key, token, s.now) && ttl > 0
    ensures var db := s.db[lock.key := s.db[lock.key].(expiresAt := s.now + ttl)];
            && Rewritten(s.db, db, lock.key, s.now, s.now + ttl)
            && OnRenew(s, lock, token, ttl) == s.(db := db, leases := Retimed(s.leases, lock, s.now, s.now + ttl))
  {
  }

  lemma RenewKeeps(locks: iset<Lock>, s: State, lock: Lock, token: string, ttl: int)
    requires Apart(locks) && Inv(locks, s) && lock in locks && ttl > 0
    ensures Inv(locks, OnRenew(s, lock, token, ttl))
  {
    if OwnedBy(s.db, lock.key, token, s.now) {
      RenewRewrites(s, lock, token, ttl);
      RetimeKeeps(locks, s, s.db[lock.key := s.db[lock.key].(expiresAt := s.now + ttl)], lock, s.now + ttl);
    }
  }

  ghost predicate IsLock(k: Lock) { IsLockKey(k.key) && k.fence == FenceKey(k.key) }

  ghost const LOCKS: iset<Lock> := iset k: Lock | IsLock(k)

  lemma LocksAreApart()
    ensures Apart(LOCKS)
  {
    forall k, o | k in LOCKS && o in LOCKS
      ensures k.key != o.fence && (k.fence == o.fence ==> k == o) && (k.key == o.key ==> k == o)
    {
      FencesAreApart(k.key, o.key);
    }
  }

  lemma StepKeeps(s: State, step: Step)
    requires Apart(LOCKS) && Inv(LOCKS, s)
    ensures Inv(LOCKS, Next(s, step))
  {
    if Accepted(step) {
      assert !step.Elapse? ==> IsLockKey(BuildLockKey(step.bankCode, step.trigger));
      match step
      case Elapse(ms) => ElapseKeeps(LOCKS, s, ms);
      case Acquire(b, t, token, ttl) => AcquireKeeps(LOCKS, s, LockOf(b, t), token, ttl);
      case Release(b, t, token) => ReleaseKeeps(LOCKS, s, LockOf(b, t), token);
      case Renew(b, t, token, ttl) => RenewKeeps(LOCKS, s, LockOf(b, t), token, ttl);
    }
  }

  lemma {:induction false} RunKeeps(start: int, steps: seq<Step>)
    ensures Apart(LOCKS) && Inv(LOCKS, Run(start, steps))
  {
    LocksAreApart();
    if steps != [] {
      RunKeeps(start, steps[..|steps| - 1]);
      StepKeeps(Run(start, steps[..|steps| - 1]), steps[|steps| - 1]);
    }
  }

  // ---- what it means ----------------------------------------------------------------------------------------

  lemma {:induction false} GrantedGrows(leases: seq<Lease>, i: nat, lock: Lock)
    requires i < |leases| && leases[i].lock == lock
    ensures Granted(leases[..i], lock) < Granted(leases, lock)
    decreases |leases|
  {
    if i < |leases| - 1 {
      GrantedGrows(leases[..|leases| - 1], i, lock);
      assert leases[..|leases| - 1][..i] == leases[..i];
    }
  }

  /** Over the whole history, expiries included: a lock's n-th lease carries token n, so tokens strictly increase. */
  lemma FencingTokensIncrease(start: int, steps: seq<Step>, i: nat, j: nat)
    requires var l := Run(start, steps).leases; i < j < |l| && l[i].lock == l[j].lock
    ensures var l := Run(start, steps).leases;
            l[i].fencing == Granted(l[..i], l[i].lock) + 1 && l[i].fencing < l[j].fencing
  {
    RunKeeps(start, steps);
    var l := Run(start, steps).leases;
    assert NumberedAt(l, i) && NumberedAt(l, j);
    GrantedGrows(l[..j], i, l[i].lock);
    assert l[..j][..i] == l[..i];
  }

  /** Leases of one bank and trigger never overlap: each ended, by expiry or release, before the next began. */
  lemma LeasesNeverOverlap(start: int, steps: seq<Step>, i: nat, j: nat)
    requires var l := Run(start, steps).leases; i < j < |l| && l[i].lock == l[j].lock
    ensures var s := Run(start, steps);
            && s.leases[i].until <= s.leases[j].from <= s.now
            && !Live(s.leases[i], s.now)
  {
    RunKeeps(start, steps);
    assert Begun(Run(start, steps).now, Run(start, steps).leases[j]);
  }

  /** Whether a lock can be taken is exactly whether no lease of it is live. */
  lemma TakenExactlyWhileLive(start: int, steps: seq<Step>, bankCode: string, t: Trigger, token: string, ttl: int)
    requires IsBankCode(bankCode) && IsTrigger(t)
    ensures var s := Run(start, steps);
            AcquireScript(s.db, LockOf(bankCode, t), token, ttl, s.now).0.None? <==>
              exists i :: 0 <= i < |s.leases| && s.leases[i].lock == LockOf(bankCode, t) && Live(s.leases[i], s.now)
  {
    RunKeeps(start, steps);
    var s, lock := Run(start, steps), LockOf(bankCode, t);
    assert IsLockKey(lock.key) && lock in LOCKS;
    if Exists(s.db, lock.key, s.now) {
      assert Backed(s, lock);
    } else {
      GrantIsNumbered(LOCKS, s, lock, token, ttl);
      forall i | 0 <= i < |s.leases| && s.leases[i].lock == lock ensures !Live(s.leases[i], s.now) {
        FreeMeansEnded(LOCKS, s, lock, i);
      }
    }
  }

  /** A lease taken, or renewed by its holder, is held until its own duration has passed or it is released. */
  lemma HeldUntilExpiry(s: State, lock: Lock, token: string, ttl: int, wait: nat)
    requires lock.key != lock.fence && ttl > 0
    requires AcquireScript(s.db, lock, token, ttl, s.now).0.Some? || OwnedBy(s.db, lock.key, token, s.now)
    ensures var taken := if AcquireScript(s.db, lock, token, ttl, s.now).0.Some?
              then OnAcquire(s, lock, token, ttl) else OnRenew(s, lock, token, ttl);
            && (OwnedBy(taken.db, lock.key, token, s.now + wait) <==> wait < ttl)
            && !OwnedBy(OnRelease(taken, lock, token).db, lock.key, token, s.now + wait)
  {
  }

  /** Release and renewal by anyone but the current holder change nothing; by the holder, nothing but its own entry. */
  lemma OnlyTheHolderActs(s: State, step: Step)
    requires Accepted(step) && (step.Release? || step.Renew?)
    ensures var lock := LockOf(step.bankCode, step.trigger);
            if OwnedBy(s.db, lock.key, step.token, s.now)
            then forall k :: k != lock.key ==>
                   (k in Next(s, step).db <==> k in s.db) && (k in s.db ==> Next(s, step).db[k] == s.db[k])
            else Next(s, step) == s
  {
  }

  /** An entry answers to a token only while a lease granted under that token is live. */
  lemma OwnerIsLive(locks: iset<Lock>, s: State, lock: Lock, token: string)
    requires Inv(locks, s) && lock in locks
    ensures OwnedBy(s.db, lock.key, token, s.now) <==>
              exists j :: 0 <= j < |s.leases| && s.leases[j].lock == lock && Live(s.leases[j], s.now)
                  && s.leases[j].token == token
  {
  }

  /** A holder whose lease has ended, and whose token nobody else was given, can no longer release or renew anything. */
  lemma StaleHolderChangesNothing(start: int, steps: seq<Step>, i: nat, step: Step)
    requires Accepted(step) && (step.Release? || step.Renew?)
    requires var s := Run(start, steps);
             && i < |s.leases| && !Live(s.leases[i], s.now)
             && s.leases[i].lock == LockOf(step.bankCode, step.trigger) && s.leases[i].token == step.token
             && forall j :: 0 <= j < |s.leases| && j != i && s.leases[j].lock == s.leases[i].lock ==>
                 s.leases[j].token != step.token
    ensures Next(Run(start, steps), step) == Run(start, steps)
  {
    RunKeeps(start, steps);
    var s, lock := Run(start, steps), LockOf(step.bankCode, step.trigger);
    assert IsLockKey(lock.key) && lock in LOCKS;
    OwnerIsLive(LOCKS, s, lock, step.token);
    OnlyTheHolderActs(s, step);
  }

  // ---- the client -------------------------------------------------------------------------------------------

  datatype AcquireResult = Acquired(token: string, fencing: nat, expiresAt: int) | NotAcquired | AcquireRejected

  datatype ChangeResult = Changed | Unchanged | ChangeRejected

  /** The shared store: every method is one script. */
  class LockStore {
    var db: Keyspace
    var now: int
    // the ledger of leases
    var leases: seq<Lease>

    ghost function View(): State
      reads this
    {
      State(db, now, leases)
    }

    ghost predicate Valid()
      reads this
    {
      Apart(LOCKS) && Inv(LOCKS, View())
    }

    constructor (start: int)
      ensures Valid() && View() == State(map[], start, [])
    {
      db, now, leases := map[], start, [];
      new;
      RunKeeps(start, []);
    }

    method OtherClient(step: Step)
      requires Valid()
      modifies this
      ensures Valid() && View() == Next(old(View()), step) && old(now) <= now
    {
      StepKeeps(View(), step);
      var s := Next(State(db, now, leases), step);
      db, now, leases := s.db, s.now, s.leases;
    }

    /** Other clients, and time; a quiet call meets neither. */
    method Interfere(quiet: bool)
      requires Valid()
      modifies this
      ensures Valid() && old(now) <= now
      ensures quiet ==> View() == old(View())
    {
      if quiet { return; }
      var n: nat :| true;
      for i := 0 to n
        invariant Valid() && old(now) <= now
      {
        var step: Step := *;
        OtherClient(step);
      }
    }

    /** The script, on any key space. */
    method EvalAcquire(lock: Lock, token: string, ttl: int) returns (r: Option<nat>)
      modifies this
      ensures View() == OnAcquire(old(View()), lock, token, ttl)
      ensures r == AcquireScript(old(db), lock, token, ttl, old(now)).0
    {
      AcquireCases(View(), lock, token, ttl);
      if Exists(db, lock.key, now) { return None; }
      r := Incremented(db, lock.fence, now);
      if r.None? { return None; }
      db := db[lock.fence := Counter(r.value)][lock.key := Entry(token, r.value, now + ttl)];
      leases := leases + [Lease(lock, token, r.value, now, now + ttl)];
    }

    method AcquireSlot(lock: Lock, token: string, ttl: int) returns (r: Option<nat>)
      requires Valid() && lock in LOCKS && ttl > 0
      modifies this
      ensures Valid() && View() == OnAcquire(old(View()), lock, token, ttl)
      ensures r == AcquireScript(old(db), lock, token, ttl, now).0
    {
      AcquireKeeps(LOCKS, View(), lock, token, ttl);
      r := EvalAcquire(lock, token, ttl);
      assert now == old(now);
    }

    /** Refused exactly while the lock's entry exists; otherwise the ledger gains its next lease. */
    method TakeSlot(lock: Lock, token: string, ttl: int) returns (r: Option<nat>)
      requires Valid() && lock in LOCKS && ttl > 0
      modifies this
      ensures Valid() && now == old(now)
      ensures if Exists(old(db), lock.key, now) then r.None? && View() == old(View())
              else
                && r == Some(Granted(leases, lock))
                && leases == old(leases) + [Lease(lock, token, r.value, now, now + ttl)]
    {
      if !Exists(db, lock.key, now) {
        GrantIsNumbered(LOCKS, View(), lock, token, ttl);
        GrantAppends(LOCKS, View(), lock, token, ttl);
      }
      ghost var before := leases;
      r := AcquireSlot(lock, token, ttl);
      assert r.Some? ==> leases[..|before|] == before;
    }

    method ReleaseIfOwner(lock: Lock, token: string) returns (released: bool)
      requires Valid() && lock in LOCKS
      modifies this
      ensures Valid() && View() == OnRelease(old(View()), lock, token)
      ensures released <==> OwnedBy(old(db), lock.key, token, now)
    {
      ReleaseKeeps(LOCKS, View(), lock, token);
      if !OwnedBy(db, lock.key, token, now) { return false; }
      db := db - {lock.key};
      leases := Retimed(leases, lock, now, now);
      return true;
    }

    method EvalRenew(lock: Lock, token: string, ttl: int) returns (renewed: bool)
      requires ttl > 0
      modifies this
      ensures View() == OnRenew(old(View()), lock, token, ttl)
      ensures renewed <==> OwnedBy(old(db), lock.key, token, old(now))
    {
      renewed := OwnedBy(db, lock.key, token, now);
      if renewed {
        RenewRewrites(View(), lock, token, ttl);
        db := db[lock.key := db[lock.key].(expiresAt := now + ttl)];
        leases := Retimed(leases, lock, now, now + ttl);
      }
    }

    method RenewIfOwner(lock: Lock, token: string, ttl: int) returns (renewed: bool)
      requires Valid() && lock in LOCKS && ttl > 0
      modifies this
      ensures Valid() && View() == OnRenew(old(View()), lock, token, ttl)
      ensures renewed <==> OwnedBy(old(db), lock.key, token, now)
    {
      RenewKeeps(LOCKS, View(), lock, token, ttl);
      renewed := EvalRenew(lock, token, ttl);
      assert now == old(now);
    }
  }

  /** A validated call is about one of the locks. */
  lemma NamesALock(bankCode: string, t: Trigger)
    requires IsBankCode(bankCode) && IsTrigger(t)
    ensures LockOf(bankCode, t) in LOCKS
  {
  }

  /** Acquires, and tells an expiry no later than the store's: the clock was read before the store was asked. */
  method Acquire(store: LockStore, bankCode: string, t: Trigger, ttl: Option<int>, token: string, quiet: bool)
      returns (r: AcquireResult)
    requires store.Valid()
    modifies store
    ensures store.Valid()
    ensures r.AcquireRejected? <==>
              !IsBankCode(bankCode) || !IsTrigger(t) || (ttl.Some? && !(0 < ttl.value <= 15 * MINUTE))
    ensures r.AcquireRejected? ==> store.View() == old(store.View())
    ensures r.Acquired? ==>
              && store.leases != []
              && var l := store.leases[|store.leases| - 1];
              && l.lock == LockOf(bankCode, t) && l.token == r.token == token && l.fencing == r.fencing
              && r.fencing == Granted(store.leases, l.lock)
              && r.expiresAt <= l.until == store.now + (if ttl.Some? then ttl.value else 5 * MINUTE)
              && Live(l, store.now)
    ensures quiet && !r.AcquireRejected? ==>
              var lock := LockOf(bankCode, t);
              if Exists(old(store.db), lock.key, old(store.now))
              then r.NotAcquired? && store.View() == old(store.View())
              else
                && r.Acquired? && r.expiresAt == store.leases[|store.leases| - 1].until
                && store.leases[..|store.leases| - 1] == old(store.leases)
  {
    if !IsBankCode(bankCode) || !IsTrigger(t) { return AcquireRejected; }
    var effective := if ttl.Some? then ttl.value else DEFAULT_LOCK_TTL_MS;
    if !ValidTtl(effective) { return AcquireRejected; }
    var lock := LockOf(bankCode, t);
    NamesALock(bankCode, t);
    var currentTime := store.now;
    store.Interfere(quiet);
    var fencing := store.TakeSlot(lock, token, effective);
    if fencing.None? { return NotAcquired; }
    return Acquired(token, fencing.value, currentTime + effective);
  }

  method Release(store: LockStore, bankCode: string, t: Trigger, token: string) returns (r: ChangeResult)
    requires store.Valid()
    modifies store
    ensures store.Valid()
    ensures r.ChangeRejected? <==> !IsBankCode(bankCode) || !IsTrigger(t) || token == ""
    ensures store.View() == if r.Changed? then OnRelease(old(store.View()), LockOf(bankCode, t), token)
              else old(store.View())
    ensures !r.ChangeRejected? ==> (r.Changed? <==> OwnedBy(old(store.db), LockOf(bankCode, t).key, token, store.now))
  {
    if !IsBankCode(bankCode) || !IsTrigger(t) || token == "" { return ChangeRejected; }
    NamesALock(bankCode, t);
    var released := store.ReleaseIfOwner(LockOf(bankCode, t), token);
    return if released then Changed else Unchanged;
  }

  method Renew(store: LockStore, bankCode: string, t: Trigger, token: string, ttl: Option<int>)
      returns (r: ChangeResult)
    requires store.Valid()
    modifies store
    ensures store.Valid()
    ensures r.ChangeRejected? <==>
              !IsBankCode(bankCode) || !IsTrigger(t) || token == "" || (ttl.Some? && !(0 < ttl.value <= 15 * MINUTE))
    ensures var effective := if ttl.Some? then ttl.value else 5 * MINUTE;
            store.View() == if r.Changed? then OnRenew(old(store.View()), LockOf(bankCode, t), token, effective)
                            else old(store.View())
    ensures !r.ChangeRejected? ==> (r.Changed? <==> OwnedBy(old(store.db), LockOf(bankCode, t).key, token, store.now))
  {
    if !IsBankCode(bankCode) || !IsTrigger(t) || token == "" { return ChangeRejected; }
    var effective := if ttl.Some? then ttl.value else DEFAULT_LOCK_TTL_MS;
    if !ValidTtl(effective) { return ChangeRejected; }
    NamesALock(bankCode, t);
    var renewed := store.RenewIfOwner(LockOf(bankCode, t), token, effective);
    return if renewed then Changed else Unchanged;
  }
}
