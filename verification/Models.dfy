/** The records that the mission components exchange. */
module Models {
  import opened Options

  datatype ActionType = Arm | MoveTo | Hold | ReturnToHome | Disarm

  datatype Action = Action(kind: ActionType, x: Option<real>, y: Option<real>, speed: Option<real>)

  datatype VehicleState = VehicleState(
    vehicleId: string,
    x: real,
    y: real,
    battery: real,
    armed: bool,
    connected: bool,
    homeX: real,
    homeY: real,
    heading: real,
    vx: real,
    vy: real,
    positionStd: real,
    sensorAge: real,
    nearestObstacle: Option<real>)

  datatype PolicyConfig = PolicyConfig(
    maxSpeed: real,
    minBatteryForMotion: real,
    geofence: real,
    minStandoff: real,
    maxLocalizationStd: real,
    maxStaleness: real)

  datatype CapabilityProfile = CapabilityProfile(maxSpeed: real, supportsReturnToHome: bool)

  /** Reason codes are opaque tags: nothing depends on their text. */
  datatype BlockReason =
    | LocalizationStale
    | SubsystemFailure
    | SensingError(detail: string)
    | AdapterSpeedLimit
    | AdapterCapabilityUnsupported
    | VehicleDisconnected
    | LocalizationUncertain
    | SensorDataStale
    | SpeedExceedsPolicy
    | BatteryBelowMotionThreshold
    | StandoffViolated
    | MissingMoveTarget
    | TargetXOutOfGeofence
    | TargetYOutOfGeofence
    | DisarmAwayFromHome
    | TransportFailure

  datatype Event =
    | Exec(kind: ActionType)
    | FailoverUsed(kind: ActionType)
    | PolicyBlock(reason: BlockReason)
    | Fallback
    | SystemFault

  /** A position no further than `limit` from the origin on either axis. */
  predicate Within(limit: real, x: real, y: real) {
    Abs(x) <= limit && Abs(y) <= limit
  }
}
