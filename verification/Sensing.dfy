/** What a run senses in one step: perceived obstacles and the pose estimated from them. */
module Sensing {
  import opened Options
  import opened Models

  datatype DetectedObstacle = DetectedObstacle(
    x: real,
    y: real,
    radius: real,
    confidence: real,
    source: string,
    trackId: Option<string>,
    classLabel: string,
    vx: Option<real>,
    vy: Option<real>,
    ageFrames: int)

  /** The numeric telemetry fields; an absent or non-numeric field is `None`. */
  datatype Telemetry = Telemetry(
    gpsX: Option<real>,
    gpsY: Option<real>,
    x: Option<real>,
    y: Option<real>,
    imuVx: Option<real>,
    imuVy: Option<real>,
    heading: Option<real>,
    positionStd: Option<real>)

  datatype Frame = Frame(timestamp: real, obstacles: seq<DetectedObstacle>, telemetry: Telemetry)

  datatype Estimate = Estimate(
    x: real, y: real, heading: real, vx: real, vy: real, positionStd: real, timestamp: real, isFresh: bool)

  function Times(a: real, b: real): real {
    a * b
  }

  lemma ProductIsMonotone(c: real, a: real, b: real)
    requires 0.0 <= c
    ensures a <= b ==> Times(c, a) <= Times(c, b)
    ensures a < b && 0.0 < c ==> Times(c, a) < Times(c, b)
    ensures Times(c, a) == Times(a, c)
  {
  }

  datatype LocalizationEngine = PassThrough | Fused(gpsWeight: real, maxStaleness: real)

  function OrElse(value: Option<real>, default: real): real {
    if value.Some? then value.value else default
  }

  function Blend(weight: real, measured: real, known: real): real {
    Times(weight, measured) + Times(1.0 - weight, known)
  }

  function EstimatePose(engine: LocalizationEngine, state: VehicleState, frame: Frame, now: real): Estimate {
    match engine
    case PassThrough =>
      Estimate(state.x, state.y, state.heading, state.vx, state.vy, state.positionStd, frame.timestamp, true)
    case Fused(gpsWeight, maxStaleness) =>
      var t := frame.telemetry;
      var weight := if gpsWeight < 0.0 then 0.0 else if gpsWeight > 1.0 then 1.0 else gpsWeight;
      Estimate(
        Blend(weight, OrElse(t.gpsX, OrElse(t.x, state.x)), state.x),
        Blend(weight, OrElse(t.gpsY, OrElse(t.y, state.y)), state.y),
        OrElse(t.heading, state.heading),
        OrElse(t.imuVx, state.vx),
        OrElse(t.imuVy, state.vy),
        Max(0.0, OrElse(t.positionStd, state.positionStd)),
        frame.timestamp,
        Max(0.0, now - frame.timestamp) <= Max(0.0, maxStaleness))
  }

  /** A blended coordinate lies between what was known and what was measured. */
  lemma BlendIsBetween(weight: real, measured: real, known: real)
    requires 0.0 <= weight <= 1.0
    ensures measured <= known ==> measured <= Blend(weight, measured, known) <= known
    ensures known <= measured ==> known <= Blend(weight, measured, known) <= measured
  {
    ProductIsMonotone(weight, measured, known);
    ProductIsMonotone(weight, known, measured);
    ProductIsMonotone(1.0 - weight, measured, known);
    ProductIsMonotone(1.0 - weight, known, measured);
    assert Times(weight, known) + Times(1.0 - weight, known) == known;
    assert Times(weight, measured) + Times(1.0 - weight, measured) == measured;
  }

  /** Whatever weight is configured, a fused position never leaves the box of the state and the fix. */
  lemma FusedPoseIsBetween(engine: LocalizationEngine, state: VehicleState, frame: Frame, now: real)
    requires engine.Fused?
    ensures var pose, fixX, fixY := EstimatePose(engine, state, frame, now),
        OrElse(frame.telemetry.gpsX, OrElse(frame.telemetry.x, state.x)),
        OrElse(frame.telemetry.gpsY, OrElse(frame.telemetry.y, state.y));
      && (state.x <= pose.x <= fixX || fixX <= pose.x <= state.x)
      && (state.y <= pose.y <= fixY || fixY <= pose.y <= state.y)
      && pose.positionStd >= 0.0
  {
    var t := frame.telemetry;
    var weight := if engine.gpsWeight < 0.0 then 0.0 else if engine.gpsWeight > 1.0 then 1.0 else engine.gpsWeight;
    BlendIsBetween(weight, OrElse(t.gpsX, OrElse(t.x, state.x)), state.x);
    BlendIsBetween(weight, OrElse(t.gpsY, OrElse(t.y, state.y)), state.y);
  }

  /** The first of the two readings that is there, or what was known before. */
  function Reading(first: Option<real>, second: Option<real>, known: real): real {
    match (first, second)
    case (Some(a), _) => a
    case (None, Some(b)) => b
    case _ => known
  }

  /**
   * A fused position is the weighted mean of the fix and the known position, under the weight confined to
   * the unit interval; the fix is the GPS reading, or else the plain one. Everything else is the reading if
   * there is one. It is fresh exactly if the frame is no older than allowed, or from the future.
   */
  lemma FusedPoseIsWeightedMean(engine: LocalizationEngine, state: VehicleState, frame: Frame, now: real, weight: real)
    requires engine.Fused? && 0.0 <= weight <= 1.0
    requires weight == engine.gpsWeight || engine.gpsWeight < weight == 0.0 || 1.0 == weight < engine.gpsWeight
    ensures var pose, t := EstimatePose(engine, state, frame, now), frame.telemetry;
      && pose.x == weight * Reading(t.gpsX, t.x, state.x) + (1.0 - weight) * state.x
      && pose.y == weight * Reading(t.gpsY, t.y, state.y) + (1.0 - weight) * state.y
      && pose.heading == Reading(t.heading, None, state.heading)
      && pose.vx == Reading(t.imuVx, None, state.vx) && pose.vy == Reading(t.imuVy, None, state.vy)
      && pose.positionStd == Max(0.0, Reading(t.positionStd, None, state.positionStd))
      && pose.timestamp == frame.timestamp
      && (pose.isFresh <==> now <= frame.timestamp || now - frame.timestamp <= engine.maxStaleness)
  {
  }

  /** Without an engine the known pose is taken over, and always counts as fresh. */
  lemma PassedThroughPoseIsKnown(state: VehicleState, frame: Frame, now: real)
    ensures var pose := EstimatePose(PassThrough, state, frame, now);
      && pose.isFresh && pose.x == state.x && pose.y == state.y && pose.heading == state.heading
      && pose.vx == state.vx && pose.vy == state.vy && pose.positionStd == state.positionStd
  {
  }

  /** Distance between two points. The Euclidean distance is known only through its defining law. */
  type Metric = (real, real, real, real) -> real

  function Square(a: real): real {
    Times(a, a)
  }

  ghost predicate Euclidean(metric: Metric) {
    forall x, y, u, v ::
      metric(x, y, u, v) >= 0.0 && Square(metric(x, y, u, v)) == Square(x - u) + Square(y - v)
  }

  /** Distance from a point to the edge of an obstacle (negative inside it). */
  function EdgeDistance(metric: Metric, x: real, y: real, o: DetectedObstacle): real {
    metric(x, y, o.x, o.y) - Max(o.radius, 0.0)
  }

  function NearestDistance(metric: Metric, x: real, y: real, obstacles: seq<DetectedObstacle>): Option<real> {
    if obstacles == [] then None
    else
      var first := EdgeDistance(metric, x, y, obstacles[0]);
      match NearestDistance(metric, x, y, obstacles[1..])
      case None => Some(first)
      case Some(rest) => Some(if first <= rest then first else rest)
  }

  /** `None` or at least `gap`: the test by which both the planner and the kernel judge a position. */
  predicate AtLeast(distance: Option<real>, gap: real) {
    distance.None? || distance.value >= gap
  }

  /** Comparing the nearest distance against a gap compares every obstacle against it. */
  lemma {:induction false} NearestDistanceIsMinimum(
      metric: Metric, x: real, y: real, obstacles: seq<DetectedObstacle>, gap: real)
    ensures AtLeast(NearestDistance(metric, x, y, obstacles), gap)
         <==> forall o | o in obstacles :: EdgeDistance(metric, x, y, o) >= gap
  {
    if obstacles != [] {
      NearestDistanceIsMinimum(metric, x, y, obstacles[1..], gap);
      assert forall o :: o in obstacles <==> o == obstacles[0] || o in obstacles[1..];
    }
  }

  /** Room around a point, stated without the square root. */
  ghost predicate Clear(x: real, y: real, o: DetectedObstacle, gap: real) {
    Square(x - o.x) + Square(y - o.y) >= Square(gap + Max(o.radius, 0.0))
  }

  lemma SquareIsMonotone(a: real, b: real)
    requires 0.0 <= a && 0.0 <= b
    ensures a <= b <==> Square(a) <= Square(b)
  {
    ProductIsMonotone(a, a, b);
    ProductIsMonotone(a, b, a);
    ProductIsMonotone(b, a, b);
    ProductIsMonotone(b, b, a);
  }

  lemma EdgeDistanceMeansClear(metric: Metric, x: real, y: real, o: DetectedObstacle, gap: real)
    requires Euclidean(metric) && gap >= 0.0
    ensures EdgeDistance(metric, x, y, o) >= gap <==> Clear(x, y, o, gap)
  {
    SquareIsMonotone(gap + Max(o.radius, 0.0), metric(x, y, o.x, o.y));
  }
}
