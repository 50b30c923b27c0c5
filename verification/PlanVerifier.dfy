/** Static checks on a plan before it may run. */
module PlanVerifier {
  import opened Models

  datatype PlanError =
    | NoActions
    | FirstNotArm
    | LastNotDisarm
    | MoveWithoutTarget(index: nat)
    | MoveWithoutSpeed(index: nat)

  /** The faults a plan can have. An empty plan is reported as such and as nothing else. */
  predicate HasFault(actions: seq<Action>, e: PlanError) {
    match e
    case NoActions => actions == []
    case FirstNotArm => actions != [] && actions[0].kind != Arm
    case LastNotDisarm => actions != [] && actions[|actions| - 1].kind != Disarm
    case MoveWithoutTarget(i) =>
      i < |actions| && actions[i].kind == MoveTo && (actions[i].x.None? || actions[i].y.None?)
    case MoveWithoutSpeed(i) =>
      i < |actions| && actions[i].kind == MoveTo && (actions[i].speed.None? || actions[i].speed.value <= 0.0)
  }

  /** Arms first, disarms last, and every move in between is complete. */
  ghost predicate Accepted(actions: seq<Action>) {
    && actions != []
    && actions[0].kind == Arm
    && actions[|actions| - 1].kind == Disarm
    && forall i | 0 <= i < |actions| && actions[i].kind == MoveTo ::
         actions[i].x.Some? && actions[i].y.Some? && actions[i].speed.Some? && actions[i].speed.value > 0.0
  }

  method Verify(actions: seq<Action>) returns (ok: bool, errors: seq<PlanError>)
    ensures forall e :: e in errors <==> HasFault(actions, e)
    ensures ok <==> Accepted(actions)
  {
    if actions == [] {
      return false, [NoActions];
    }
    errors := [];
    if actions[0].kind != Arm {
      errors := errors + [FirstNotArm];
    }
    if actions[|actions| - 1].kind != Disarm {
      errors := errors + [LastNotDisarm];
    }
    for i := 0 to |actions|
      invariant forall e :: e in errors <==> HasFault(actions, e) && (e.FirstNotArm? || e.LastNotDisarm? || e.index < i)
    {
      var action := actions[i];
      if action.kind == MoveTo {
        if action.x.None? || action.y.None? {
          errors := errors + [MoveWithoutTarget(i)];
        }
        if action.speed.None? || action.speed.value <= 0.0 {
          errors := errors + [MoveWithoutSpeed(i)];
        }
      }
    }
    ok := |errors| == 0;
    assert ok || errors[0] in errors;
    FaultFreeIsAccepted(actions);
  }

  lemma FaultFreeIsAccepted(actions: seq<Action>)
    ensures (forall e :: !HasFault(actions, e)) <==> Accepted(actions)
  {
    if forall e :: !HasFault(actions, e) {
      assert !HasFault(actions, NoActions) && !HasFault(actions, FirstNotArm) && !HasFault(actions, LastNotDisarm);
      forall i | 0 <= i < |actions| && actions[i].kind == MoveTo
        ensures actions[i].x.Some? && actions[i].y.Some? && actions[i].speed.Some? && actions[i].speed.value > 0.0
      {
        assert !HasFault(actions, MoveWithoutTarget(i)) && !HasFault(actions, MoveWithoutSpeed(i));
      }
    }
  }
}
