// The bounded semaphore for browser sessions: slots, a waiter queue with timeouts, and idempotent releases.
// Handles and waiters are numbered in the order they are created.
module BrowserSemaphore {
  import opened Wrappers

  datatype Semaphore = Semaphore(
    max: int, limit: int,
    active: int, queue: seq<nat>, settled: set<nat>, released: set<nat>, throttles: nat,
    // how many waiters and handles there have been, how often acquire was called, and which waiters got a slot
    waiters: nat, handles: nat, calls: nat, grants: seq<nat>)

  datatype Acquired = Slot(handle: nat) | Throttled | Waiting(waiter: nat)

  datatype Step = Acquire | Release(handle: nat) | Timeout(waiter: nat)

  function New(max: int, limit: int): Semaphore { Semaphore(max, limit, 0, [], {}, {}, 0, 0, 0, 0, []) }

  function OnAcquire(s: Semaphore): (Semaphore, Acquired) {
    var c := s.(calls := s.calls + 1);
    if s.max <= 0 then (c.(throttles := s.throttles + 1), Throttled)
    else if s.active < s.max then (c.(active := s.active + 1, handles := s.handles + 1), Slot(s.handles))
    else if |s.queue| >= s.limit then (c.(throttles := s.throttles + 1), Throttled)
    else (c.(queue := s.queue + [s.waiters], waiters := s.waiters + 1), Waiting(s.waiters))
  }

  function IndexOf(w: nat, queue: seq<nat>): (i: Option<nat>)
    ensures i.Some? ==> i.value < |queue| && queue[i.value] == w && w !in queue[..i.value]
    ensures i.None? ==> w !in queue
  {
    if queue == [] then None
    else if queue[0] == w then Some(0)
    else
      match IndexOf(w, queue[1..])
      case None => None
      case Some(i) =>
        assert queue[..i + 1] == [queue[0]] + queue[1..][..i];
        Some(i + 1)
  }

  function Spliced(w: nat, queue: seq<nat>): seq<nat> {
    match IndexOf(w, queue)
    case None => queue
    case Some(i) => queue[..i] + queue[i + 1..]
  }

  function OnTimeout(s: Semaphore, w: nat): Semaphore {
    if w >= s.waiters || w in s.settled then s
    else s.(settled := s.settled + {w}, queue := Spliced(w, s.queue), throttles := s.throttles + 1)
  }

  /** The queue from its first unsettled waiter on. */
  function Awake(queue: seq<nat>, settled: set<nat>): seq<nat> {
    if queue != [] && queue[0] in settled then Awake(queue[1..], settled) else queue
  }

  function OnRelease(s: Semaphore, h: nat): Semaphore {
    if h >= s.handles || h in s.released then s
    else
      var t := s.(released := s.released + {h}, queue := Awake(s.queue, s.settled));
      if t.queue != [] then
        t.(queue := t.queue[1..], settled := t.settled + {t.queue[0]}, handles := t.handles + 1,
            grants := t.grants + [t.queue[0]])
      else t.(active := if t.active - 1 > 0 then t.active - 1 else 0)
  }

  function Next(s: Semaphore, step: Step): Semaphore {
    match step
    case Acquire => OnAcquire(s).0
    case Release(h) => OnRelease(s, h)
    case Timeout(w) => OnTimeout(s, w)
  }

  function Run(max: int, limit: int, steps: seq<Step>): Semaphore {
    if steps == [] then New(max, limit) else Next(Run(max, limit, steps[..|steps| - 1]), steps[|steps| - 1])
  }

  // ---- invariant --------------------------------------------------------------------------------------------

  predicate Increasing(s: seq<nat>) { forall i, j :: 0 <= i < j < |s| ==> s[i] < s[j] }

  ghost predicate Inv(s: Semaphore) {
    // active counts the handles that were given out and not released
    && (forall h :: h in s.released ==> h < s.handles)
    && s.active == s.handles - |s.released|
    && 0 <= s.active && (s.active == 0 || s.active <= s.max)
    && (s.queue != [] ==> s.active == s.max)
    && (s.queue == [] || |s.queue| <= s.limit)
    // the queue is exactly the unsettled waiters, oldest first
    && Increasing(s.queue)
    && (forall i :: 0 <= i < |s.queue| ==> s.queue[i] < s.waiters && s.queue[i] !in s.settled)
    && (forall w: nat :: w < s.waiters && w !in s.settled ==> w in s.queue)
    && (forall w :: w in s.settled ==> w < s.waiters)
    // slots went to waiters oldest first, past nobody still waiting
    && Increasing(s.grants)
    && (forall i :: 0 <= i < |s.grants| ==> forall x: nat :: x <= s.grants[i] ==> x in s.settled)
    // every call has got a slot, been throttled, or is waiting
    && s.calls == s.handles + s.throttles + |s.queue|
  }

  lemma {:induction false} SubsetOfRange(s: set<nat>, n: nat)
    requires forall h :: h in s ==> h < n
    ensures |s| <= n
    decreases n
  {
    if n > 0 {
      SubsetOfRange(s - {n - 1}, n - 1);
    } else {
      assert s == {};
    }
  }

  /** An outstanding handle keeps a slot occupied, so subtracting it never goes below zero. */
  lemma ClampNeverBites(s: Semaphore, h: nat)
    requires Inv(s) && h < s.handles && h !in s.released
    ensures s.active >= 1
  {
    SubsetOfRange(s.released + {h}, s.handles);
  }

  /**
   * What a call for a slot gets, exactly: a free slot if there is one, otherwise the last place in a queue that has
   * room, and otherwise nothing. Every call is counted, and nothing else changes.
   */
  lemma AcquireExactly(s: Semaphore)
    requires Inv(s)
    ensures var (t, r) := OnAcquire(s);
            && (r == Slot(s.handles) <==> s.active < s.max)
            && (r == Waiting(s.waiters) <==> 0 < s.max == s.active && |s.queue| < s.limit)
            && (r == Throttled <==> s.max <= 0 || (s.active == s.max && |s.queue| >= s.limit))
            && t == s.(calls := s.calls + 1,
                       active := s.active + if r.Slot? then 1 else 0, handles := s.handles + if r.Slot? then 1 else 0,
                       queue := s.queue + if r.Waiting? then [s.waiters] else [],
                       waiters := s.waiters + if r.Waiting? then 1 else 0,
                       throttles := s.throttles + if r.Throttled? then 1 else 0)
  {
    assert s.queue + [] == s.queue;
  }

  lemma AcquireKeeps(s: Semaphore)
    requires Inv(s)
    ensures Inv(OnAcquire(s).0)
  {
  }

  lemma SplicedKeeps(w: nat, queue: seq<nat>)
    requires Increasing(queue) && w in queue
    ensures Increasing(Spliced(w, queue)) && |Spliced(w, queue)| == |queue| - 1
    ensures forall x :: x in Spliced(w, queue) <==> x in queue && x != w
  {
  }

  lemma TimeoutKeeps(s: Semaphore, w: nat)
    requires Inv(s)
    ensures Inv(OnTimeout(s, w))
  {
    if w < s.waiters && w !in s.settled {
      SplicedKeeps(w, s.queue);
      var t := OnTimeout(s, w);
      forall i | 0 <= i < |t.queue| ensures t.queue[i] < t.waiters && t.queue[i] !in t.settled {
        assert t.queue[i] in s.queue;
      }
    }
  }

  /** The head of the queue takes over the slot of a released handle. */
  function HandedOver(s: Semaphore, h: nat): Semaphore
    requires s.queue != []
  {
    s.(released := s.released + {h}, queue := s.queue[1..], settled := s.settled + {s.queue[0]},
       handles := s.handles + 1, grants := s.grants + [s.queue[0]])
  }

  lemma HandOverKeepsOrder(s: Semaphore)
    requires Inv(s) && s.queue != []
    ensures Increasing(s.queue[1..]) && Increasing(s.grants + [s.queue[0]])
    ensures s.queue[0] !in s.queue[1..] && forall w :: w in s.queue && w != s.queue[0] ==> w in s.queue[1..]
  {
  }

  lemma HandOverIsRelease(s: Semaphore, h: nat)
    requires Inv(s) && h < s.handles && h !in s.released && s.queue != []
    ensures OnRelease(s, h) == HandedOver(s, h)
  {
  }

  /** A timer throttles exactly a waiter who is still waiting; a slot that comes later passes that waiter by. */
  lemma TimeoutExactly(s: Semaphore, w: nat)
    requires Inv(s)
    ensures var t := OnTimeout(s, w);
            && (w !in s.queue ==> t == s)
            && (w in s.queue ==>
                  && (forall x :: x in t.queue <==> x in s.queue && x != w) && Increasing(t.queue)
                  && t == s.(queue := t.queue, settled := s.settled + {w}, throttles := s.throttles + 1))
  {
    if w in s.queue { SplicedKeeps(w, s.queue); }
  }

  /** A first release hands the slot to the oldest waiter, or frees it; a later one does nothing. */
  lemma ReleaseExactly(s: Semaphore, h: nat)
    requires Inv(s)
    ensures var t := OnRelease(s, h);
            && (h >= s.handles || h in s.released ==> t == s)
            && (h < s.handles && h !in s.released && s.queue != [] ==> t == HandedOver(s, h))
            && (h < s.handles && h !in s.released && s.queue == [] ==>
                  t == s.(released := s.released + {h}, active := s.active - 1))
  {
    if h < s.handles && h !in s.released {
      ClampNeverBites(s, h);
      if s.queue != [] { HandOverIsRelease(s, h); }
    }
  }

  lemma HandOverKeeps(s: Semaphore, h: nat)
    requires Inv(s) && h < s.handles && h !in s.released && s.queue != []
    ensures Inv(HandedOver(s, h))
  {
    HandOverKeepsOrder(s);
    HeadIsOldest(s);
  }

  lemma ReleaseKeeps(s: Semaphore, h: nat)
    requires Inv(s)
    ensures Inv(OnRelease(s, h))
  {
    if h < s.handles && h !in s.released {
      ClampNeverBites(s, h);
      if s.queue != [] {
        HandOverIsRelease(s, h);
        HandOverKeeps(s, h);
      }
    }
  }

  /** Everybody before the head of the queue has been settled, and the head is newer than all earlier grants. */
  lemma HeadIsOldest(s: Semaphore)
    requires Inv(s) && s.queue != []
    ensures forall x: nat :: x < s.queue[0] ==> x in s.settled
    ensures forall i :: 0 <= i < |s.grants| ==> s.grants[i] < s.queue[0]
  {
  }

  lemma {:induction false} RunKeepsInv(max: int, limit: int, steps: seq<Step>)
    ensures Inv(Run(max, limit, steps)) && Run(max, limit, steps).max == max && Run(max, limit, steps).limit == limit
  {
    if steps != [] {
      RunKeepsInv(max, limit, steps[..|steps| - 1]);
      var s := Run(max, limit, steps[..|steps| - 1]);
      match steps[|steps| - 1]
      case Acquire => AcquireKeeps(s);
      case Release(h) => ReleaseKeeps(s, h);
      case Timeout(w) => TimeoutKeeps(s, w);
    }
  }

  // ---- what it means ----------------------------------------------------------------------------------------

  /** Over every history: active is the number of outstanding handles and within bounds, and nobody waits in vain. */
  lemma SlotsAreCounted(max: int, limit: int, steps: seq<Step>)
    ensures var s := Run(max, limit, steps);
            && s.active == s.handles - |s.released|
            && 0 <= s.active && (max >= 0 ==> s.active <= max) && (max <= 0 ==> s.active == 0)
            && (s.queue != [] ==> s.active == max && |s.queue| <= limit)
            && (forall w :: w in s.queue ==> w !in s.settled)
            && s.calls == s.handles + s.throttles + |s.queue|
  {
    RunKeepsInv(max, limit, steps);
  }

  /** Slots are handed on first come, first served among those who have not given up. */
  lemma GrantsAreFifo(max: int, limit: int, steps: seq<Step>, i: nat, j: nat, x: nat)
    requires var s := Run(max, limit, steps); i < j < |s.grants|
    ensures var s := Run(max, limit, steps);
            && s.grants[i] < s.grants[j]
            && (x <= s.grants[j] ==> x in s.settled && x !in s.queue)
  {
    RunKeepsInv(max, limit, steps);
  }

  /** Once every handle is back, no slot is lost and nobody is left waiting. */
  lemma NoLostWakeup(max: int, limit: int, steps: seq<Step>)
    requires var s := Run(max, limit, steps); forall h: nat :: h < s.handles ==> h in s.released
    ensures var s := Run(max, limit, steps); s.active == 0 && s.queue == []
  {
    RunKeepsInv(max, limit, steps);
    var s := Run(max, limit, steps);
    RangeOfAll(s.released, s.handles);
    if max <= 0 { NobodyQueuesWithoutSlots(max, limit, steps); }
  }

  lemma {:induction false} RangeOfAll(s: set<nat>, n: nat)
    requires forall h: nat :: h < n ==> h in s
    ensures |s| >= n
    decreases n
  {
    if n > 0 {
      RangeOfAll(s - {n - 1}, n - 1);
    }
  }

  lemma {:induction false} NobodyQueuesWithoutSlots(max: int, limit: int, steps: seq<Step>)
    requires max <= 0
    ensures Run(max, limit, steps).waiters == 0 && Run(max, limit, steps).queue == []
              && Run(max, limit, steps).handles == 0
  {
    if steps != [] {
      NobodyQueuesWithoutSlots(max, limit, steps[..|steps| - 1]);
      RunKeepsInv(max, limit, steps[..|steps| - 1]);
    }
  }

  /** Releasing twice is releasing once. */
  lemma ReleaseIsIdempotent(s: Semaphore, h: nat)
    requires Inv(s)
    ensures OnRelease(OnRelease(s, h), h) == OnRelease(s, h)
  {
  }

  // ---- the object -------------------------------------------------------------------------------------------

  class BrowserSemaphore {
    const max: int
    const queueLimit: int
    var activeCount: int
    var queue: seq<nat>
    var settled: set<nat>
    var released: set<nat>
    var throttleCount: nat
    var waiters: nat
    var handles: nat
    var calls: nat
    var grants: seq<nat>

    ghost function View(): Semaphore
      reads this
    {
      Semaphore(max, queueLimit, activeCount, queue, settled, released, throttleCount, waiters, handles, calls, grants)
    }

    ghost predicate Valid()
      reads this
    {
      Inv(View())
    }

    constructor (max: int, queueLimit: int)
      ensures Valid() && View() == New(max, queueLimit)
    {
      this.max, this.queueLimit := max, queueLimit;
      activeCount, queue, settled, released, throttleCount := 0, [], {}, {}, 0;
      waiters, handles, calls, grants := 0, 0, 0, [];
    }

    method AcquireSlot() returns (r: Acquired)
      requires Valid()
      modifies this
      ensures Valid() && (View(), r) == OnAcquire(old(View()))
    {
      AcquireKeeps(View());
      calls := calls + 1;
      if max <= 0 {
        throttleCount := throttleCount + 1;
        return Throttled;
      }
      if activeCount < max {
        activeCount, handles := activeCount + 1, handles + 1;
        return Slot(handles - 1);
      }
      if |queue| >= queueLimit {
        throttleCount := throttleCount + 1;
        return Throttled;
      }
      queue, waiters := queue + [waiters], waiters + 1;
      return Waiting(waiters - 1);
    }

    /** The timer of a waiter fires. */
    method TimeOut(w: nat)
      requires Valid() && w < waiters
      modifies this
      ensures Valid() && View() == OnTimeout(old(View()), w)
    {
      TimeoutKeeps(View(), w);
      if w in settled { return; }
      settled := settled + {w};
      var index := IndexOf(w, queue);
      if index.Some? { queue := queue[..index.value] + queue[index.value + 1..]; }
      throttleCount := throttleCount + 1;
    }

    /** Gives the slot to the oldest waiter still there, or frees it. */
    method ReleaseSlot(h: nat)
      requires Valid() && h < handles
      modifies this
      ensures Valid() && View() == OnRelease(old(View()), h)
      ensures h !in old(released) && old(queue) != [] ==>
                activeCount == old(activeCount) && grants == old(grants) + [old(queue)[0]] && queue == old(queue)[1..]
      ensures h !in old(released) && old(queue) == [] ==> activeCount == old(activeCount) - 1
    {
      ReleaseKeeps(View(), h);
      if h in released { return; }
      ClampNeverBites(View(), h);
      released := released + {h};
      while queue != [] && queue[0] in settled
        invariant Awake(queue, settled) == Awake(old(queue), settled)
        modifies `queue
        decreases |queue|
      {
        queue := queue[1..];
      }
      if queue != [] {
        var next := queue[0];
        queue, settled := queue[1..], settled + {next};
        handles, grants := handles + 1, grants + [next];
      } else {
        activeCount := if activeCount - 1 > 0 then activeCount - 1 else 0;
      }
    }
  }
}
