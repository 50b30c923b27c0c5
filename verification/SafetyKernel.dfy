/** The deterministic policy gate in front of every action. */
module SafetyKernel {
  import opened Options
  import opened Models

  /** The first violated rule, or `None` when the action may run. */
  function Precheck(cfg: PolicyConfig, state: VehicleState, action: Action): Option<BlockReason> {
    if !state.connected then Some(VehicleDisconnected)
    else if state.positionStd > cfg.maxLocalizationStd then Some(LocalizationUncertain)
    else if state.sensorAge > cfg.maxStaleness then Some(SensorDataStale)
    else if action.kind == MoveTo && (action.speed.None? || action.speed.value > cfg.maxSpeed) then
      Some(SpeedExceedsPolicy)
    else if action.kind == MoveTo && state.battery < cfg.minBatteryForMotion then Some(BatteryBelowMotionThreshold)
    else if action.kind == MoveTo && state.nearestObstacle.Some? && state.nearestObstacle.value < cfg.minStandoff then
      Some(StandoffViolated)
    else if action.kind == MoveTo && (action.x.None? || action.y.None?) then Some(MissingMoveTarget)
    else if action.kind == MoveTo && Abs(action.x.value) > cfg.geofence then Some(TargetXOutOfGeofence)
    else if action.kind == MoveTo && Abs(action.y.value) > cfg.geofence then Some(TargetYOutOfGeofence)
    else if action.kind == Disarm && (Abs(state.x) > 0.01 || Abs(state.y) > 0.01) then Some(DisarmAwayFromHome)
    else None
  }

  /** The policy as one condition on the checked state and the action. */
  ghost predicate Permitted(cfg: PolicyConfig, state: VehicleState, action: Action) {
    && state.connected
    && state.positionStd <= cfg.maxLocalizationStd
    && state.sensorAge <= cfg.maxStaleness
    && (action.kind == MoveTo ==>
          && action.speed.Some? && action.speed.value <= cfg.maxSpeed
          && state.battery >= cfg.minBatteryForMotion
          && (state.nearestObstacle.Some? ==> state.nearestObstacle.value >= cfg.minStandoff)
          && action.x.Some? && action.y.Some? && Within(cfg.geofence, action.x.value, action.y.value))
    && (action.kind == Disarm ==> Within(0.01, state.x, state.y))
  }

  /** The cascade lets an action pass exactly if the policy permits it. */
  lemma PassesIffPermitted(cfg: PolicyConfig, state: VehicleState, action: Action)
    ensures Precheck(cfg, state, action).None? <==> Permitted(cfg, state, action)
  {
  }

  const FALLBACK_ACTION := Action(ReturnToHome, None, None, None)
}
