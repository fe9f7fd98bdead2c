// A login as its runner sees it: what the strategy and the heartbeat do one after the other, and where that leads.
module LoginPlan {
  import opened Wrappers
  import opened MutationAuthority
  import opened FencedExecution

  /** What a strategy and the heartbeat do, one after the other. */
  datatype Act = FillAct(value: string) | ClickAct | HeartbeatAct

  /** A strategy and its heartbeat: what they do, how the strategy ends, and whether the heartbeat starts and stops. */
  datatype Login = Login(plan: seq<Act>, result: ExecutionResult, starts: bool, stops: bool)

  /** Where a plan leads that nothing disturbs; `None` once it clicks before any fill, or twice. */
  function Reached(plan: seq<Act>): Option<HandlePhase> {
    if plan == [] then Some(Leased)
    else
      match Reached(plan[..|plan| - 1])
      case None => None
      case Some(p) =>
        match plan[|plan| - 1]
        case HeartbeatAct => Some(p)
        case FillAct(value) => Some(if value != "" && p == Leased then InteractionStarted else p)
        case ClickAct => if p == InteractionStarted then Some(SubmitBarrierRecorded) else None
  }

  predicate RealFill(a: Act) { a.FillAct? && a.value != "" }

  /** A plan is in order exactly if it clicks at most once, and only after it has filled something in. */
  lemma {:induction false} ReachedExactly(plan: seq<Act>)
    ensures Reached(plan).Some? <==>
              && (forall i, j :: 0 <= i < j < |plan| ==> !(plan[i].ClickAct? && plan[j].ClickAct?))
              && (forall i :: 0 <= i < |plan| && plan[i].ClickAct? ==> exists k :: 0 <= k < i && RealFill(plan[k]))
    ensures Reached(plan).Some? ==>
              && Reached(plan).value != Consumed
              && (Reached(plan).value == Leased <==> forall i :: 0 <= i < |plan| ==> !RealFill(plan[i]))
              && (Reached(plan).value == SubmitBarrierRecorded <==> exists i :: 0 <= i < |plan| && plan[i].ClickAct?)
  {
    if plan != [] {
      var before, last := plan[..|plan| - 1], plan[|plan| - 1];
      ReachedExactly(before);
      assert forall i :: 0 <= i < |before| ==> before[i] == plan[i];
    }
  }

  function ClicksAt(p: HandlePhase): nat { if p == SubmitBarrierRecorded then 1 else 0 }
}
