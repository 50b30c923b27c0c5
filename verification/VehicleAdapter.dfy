/** Adapters: the simulator, and transports whose effect the simulator projects. */
module VehicleAdapter {
  import opened Options
  import opened Models

  datatype Adapter = Sim(profile: CapabilityProfile) | Transport(profile: CapabilityProfile)

  predicate Supports(adapter: Adapter, action: Action) {
    action.kind == ReturnToHome ==> adapter.profile.supportsReturnToHome
  }

  const MOTION_DROP := 0.2
  const HOLD_DROP := 0.05

  /** The simulated effect of an action on the vehicle state. */
  function Project(state: VehicleState, action: Action): VehicleState {
    match action.kind
    case Arm => state.(armed := true)
    case MoveTo =>
      if action.x.None? || action.y.None? then state
      else state.(x := action.x.value, y := action.y.value, battery := Max(0.0, state.battery - MOTION_DROP))
    case Hold => state.(battery := Max(0.0, state.battery - HOLD_DROP))
    case ReturnToHome =>
      state.(x := state.homeX, y := state.homeY, battery := Max(0.0, state.battery - MOTION_DROP))
    case Disarm => state.(armed := false)
  }

  /**
   * `None` is the adapter's execution error. `delivered` says whether a transport's send succeeds;
   * the simulator never fails.
   */
  function Execute(adapter: Adapter, state: VehicleState, action: Action, delivered: bool): Option<VehicleState> {
    if adapter.Transport? && !delivered then None else Some(Project(state, action))
  }
}
