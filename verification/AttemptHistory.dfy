// What every history of one attempt row guarantees: any interleaving of any number of callers' statements.
module AttemptHistory {
  import opened Wrappers
  import opened AttemptMachine
  import opened AttemptRow

  // ---- runs -------------------------------------------------------------------------------------------------

  datatype State = State(slot: Option<Row>, now: int)

  datatype Step = Elapse(ms: nat) | Do(statement: Statement)

  function Next(st: State, step: Step): State {
    match step
    case Elapse(ms) => st.(now := st.now + ms)
    case Do(s) => st.(slot := Exec(s, st.slot, st.now))
  }

  /** The state after a run, any interleaving of any number of callers' statements, from an empty slot. */
  function Run(start: int, steps: seq<Step>): State {
    if steps == [] then State(None, start)
    else Next(Run(start, steps[..|steps| - 1]), steps[|steps| - 1])
  }

  function LeasesTaken(start: int, steps: seq<Step>): nat {
    if steps == [] then 0
    else
      var before, last := steps[..|steps| - 1], steps[|steps| - 1];
      var st := Run(start, before);
      LeasesTaken(start, before)
      + if last.Do? && last.statement.Acquire? && Applies(last.statement, st.slot, st.now) then 1 else 0
  }

  /**
   * The counter law over every run: the row always parses, its generation is an exact function of the retries
   * consumed and the ownership, and it has been leased exactly that many times - never more than three.
   */
  lemma {:induction false} CounterLaw(start: int, steps: seq<Step>)
    ensures SoundSlot(Run(start, steps).slot)
    ensures var slot := Run(start, steps).slot;
            LeasesTaken(start, steps) == if slot.None? then 0 else (slot.value.generation + 1) / 2
    ensures LeasesTaken(start, steps) <= 3
  {
    if steps != [] {
      var before, last := steps[..|steps| - 1], steps[|steps| - 1];
      CounterLaw(start, before);
      var st := Run(start, before);
      if last.Do? {
        ExecKeepsSound(last.statement, st.slot, st.now);
        LeaseCount(last.statement, st.slot, st.now);
      }
    }
  }

  /** Half the generation, rounded up, counts the leases: an applied Acquire adds one, a release completes it. */
  lemma LeaseCount(s: Statement, slot: Option<Row>, now: int)
    requires SoundSlot(slot)
    ensures var after := Exec(s, slot, now);
            var taken := if slot.None? then 0 else (slot.value.generation + 1) / 2;
            && (after.None? ==> slot.None?)
            && (after.Some? ==>
                  (after.value.generation + 1) / 2 == taken + if s.Acquire? && Applies(s, slot, now) then 1 else 0)
  {
  }

  lemma {:induction false} RunEvolves(start: int, steps: seq<Step>, k: nat)
    requires k <= |steps|
    ensures Evolves(Run(start, steps[..k]).slot, Run(start, steps).slot)
    ensures Run(start, steps[..k]).now <= Run(start, steps).now
    decreases |steps|
  {
    if k == |steps| {
      assert steps[..k] == steps;
    } else {
      var before, last := steps[..|steps| - 1], steps[|steps| - 1];
      assert before[..k] == steps[..k];
      RunEvolves(start, before, k);
      CounterLaw(start, before);
      var st := Run(start, before);
      if last.Do? {
        ExecEvolves(last.statement, st.slot, st.now);
      }
      EvolvesTransitive(Run(start, steps[..k]).slot, st.slot, Run(start, steps).slot);
    }
  }

  lemma PowerlessStays(st: State, step: Step, o: Owner)
    requires SoundSlot(st.slot) && Powerless(st.slot, o, st.now)
    ensures Powerless(Next(st, step).slot, o, Next(st, step).now)
  {
  }

  /**
   * An owner that has been overtaken or has let its lease lapse changes nothing at any later time, whatever
   * anyone does in between.
   */
  lemma {:induction false} OwnershipIsNeverRegained(start: int, steps: seq<Step>, k: nat, o: Owner, s: Statement)
    requires k <= |steps| && ByOwner(s, o)
    requires Powerless(Run(start, steps[..k]).slot, o, Run(start, steps[..k]).now)
    ensures var st := Run(start, steps); Exec(s, st.slot, st.now) == st.slot && !Applies(s, st.slot, st.now)
    decreases |steps|
  {
    PowerlessThroughout(start, steps, k, o);
  }

  lemma {:induction false} PowerlessThroughout(start: int, steps: seq<Step>, k: nat, o: Owner)
    requires k <= |steps|
    requires Powerless(Run(start, steps[..k]).slot, o, Run(start, steps[..k]).now)
    ensures Powerless(Run(start, steps).slot, o, Run(start, steps).now)
    decreases |steps|
  {
    if k == |steps| {
      assert steps[..k] == steps;
    } else {
      var before := steps[..|steps| - 1];
      assert before[..k] == steps[..k];
      PowerlessThroughout(start, before, k, o);
      CounterLaw(start, before);
      PowerlessStays(Run(start, before), steps[|steps| - 1], o);
    }
  }

  /**
   * Once credentials may have reached the portal, nobody can take a lease on the row for the rest of its life:
   * no Acquire applies in any continuation, and the generation that entered them stays the latest one.
   */
  lemma NoLeaseAfterCredentials(start: int, steps: seq<Step>, k: nat, id: string, token: string, ms: int)
    requires k <= |steps|
    requires var slot := Run(start, steps[..k]).slot; slot.Some? && slot.value.phase != NoInteraction
    ensures var st := Run(start, steps);
            && st.slot.Some? && Anchor(st.slot.value) == Anchor(Run(start, steps[..k]).slot.value)
            && !Applies(Acquire(id, token, ms), st.slot, st.now)
  {
    RunEvolves(start, steps, k);
    CounterLaw(start, steps);
  }

  /** The step is somebody else's, or only time. */
  predicate NotBy(step: Step, o: Owner) { step.Do? ==> !ByOwner(step.statement, o) }

  /** For as long as a lease runs, no history of anyone else's statements changes the row in any way. */
  lemma {:induction false} LeaseIsExclusive(start: int, steps: seq<Step>, k: nat, o: Owner)
    requires k <= |steps| && forall i :: k <= i < |steps| ==> NotBy(steps[i], o)
    requires var st := Run(start, steps[..k]);
             && st.slot.Some? && Owns(st.slot.value, o, st.now)
             && Run(start, steps).now < st.slot.value.leaseExpiresAt.value
    ensures Run(start, steps).slot == Run(start, steps[..k]).slot
    decreases |steps|
  {
    if k == |steps| {
      assert steps[..k] == steps;
    } else {
      var before, last := steps[..|steps| - 1], steps[|steps| - 1];
      assert before[..k] == steps[..k];
      assert Run(start, before).now <= Run(start, steps).now;
      LeaseIsExclusive(start, before, k, o);
      CounterLaw(start, before);
      assert NotBy(last, o);
      if last.Do? { LiveLeaseIsExclusive(last.statement, Run(start, before).slot.value, o, Run(start, before).now); }
    }
  }
}
