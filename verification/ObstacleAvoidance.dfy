/** Local refinement of a move target around the obstacles of the current frame. */
module ObstacleAvoidance {
  import opened Options
  import opened Models
  import opened Sensing

  datatype AvoidancePlanner = PassThroughPlanner | ClearancePlanner(minClearance: real, sidestep: real)

  /** The geofence mapping service: its own limit and the distance it measures with. */
  datatype MappingService = MappingService(limit: real, metric: Metric)

  function Offsets(step: real): seq<(real, real)> {
    [(0.0, step), (0.0, -step), (step, 0.0), (-step, 0.0), (step, step), (step, -step), (-step, step), (-step, -step)]
  }

  /** A point the planner may send the vehicle to instead of the requested one. */
  predicate Usable(mapping: MappingService, x: real, y: real, frame: Frame, gap: real) {
    && Within(mapping.limit, x, y)
    && AtLeast(NearestDistance(mapping.metric, x, y, frame.obstacles), gap)
  }

  function FirstWhere<T>(items: seq<T>, good: T -> bool): Option<T> {
    if items == [] then None else if good(items[0]) then Some(items[0]) else FirstWhere(items[1..], good)
  }

  function FirstUsable(mapping: MappingService, x: real, y: real, frame: Frame, gap: real,
                       offsets: seq<(real, real)>): Option<(real, real)>
  {
    FirstWhere(offsets, (o: (real, real)) => Usable(mapping, x + o.0, y + o.1, frame, gap))
  }

  function RefineAction(planner: AvoidancePlanner, action: Action, frame: Frame, mapping: MappingService): Action {
    if planner.PassThroughPlanner? || action.kind != MoveTo || action.x.None? || action.y.None? then action
    else
      var x, y, gap := action.x.value, action.y.value, Max(0.0, planner.minClearance);
      if AtLeast(NearestDistance(mapping.metric, x, y, frame.obstacles), gap) then action
      else match FirstUsable(mapping, x, y, frame, gap, Offsets(Max(0.0, planner.sidestep)))
      case Some(offset) => action.(x := Some(x + offset.0), y := Some(y + offset.1))
      case None => Action(Hold, None, None, None)
  }

  ghost predicate IsFirst<T>(items: seq<T>, good: T -> bool, found: T, i: nat) {
    && i < |items| && items[i] == found && good(found)
    && forall j | 0 <= j < i :: !good(items[j])
  }

  lemma {:induction false} FirstWhereIsFirst<T>(items: seq<T>, good: T -> bool) returns (i: nat)
    ensures match FirstWhere(items, good)
      case None => forall item | item in items :: !good(item)
      case Some(found) => IsFirst(items, good, found, i)
  {
    if items == [] || good(items[0]) {
      i := 0;
    } else {
      var rest := FirstWhereIsFirst(items[1..], good);
      i := rest + 1;
    }
  }

  /** The search returns the first usable offset, and `None` exactly when none is usable. */
  lemma FirstUsableIsFirst(
      mapping: MappingService, x: real, y: real, frame: Frame, gap: real, offsets: seq<(real, real)>)
    returns (i: nat)
    ensures match FirstUsable(mapping, x, y, frame, gap, offsets)
      case None =>
        forall o | o in offsets :: !Usable(mapping, x + o.0, y + o.1, frame, gap)
      case Some(found) =>
        && i < |offsets| && offsets[i] == found && Usable(mapping, x + found.0, y + found.1, frame, gap)
        && forall j | 0 <= j < i :: !Usable(mapping, x + offsets[j].0, y + offsets[j].1, frame, gap)
  {
    i := FirstWhereIsFirst(offsets, (o: (real, real)) => Usable(mapping, x + o.0, y + o.1, frame, gap));
  }

  /** A point one of the eight sidesteps away from (x, y), in any order of the candidates. */
  ghost predicate Sidestep(step: real, x: real, y: real, u: real, v: real) {
    && u in {x - step, x, x + step}
    && v in {y - step, y, y + step}
    && (u != x || v != y || step == 0.0)
  }

  /** The only situation for holding: the target is blocked, and so is each sidestep or it leaves the geofence. */
  ghost predicate NowhereToGo(mapping: MappingService, x: real, y: real, frame: Frame, gap: real, step: real) {
    && (exists o :: o in frame.obstacles && !Clear(x, y, o, gap))
    && (forall u, v | Sidestep(step, x, y, u, v) ::
          !Within(mapping.limit, u, v) || exists o :: o in frame.obstacles && !Clear(u, v, o, gap))
  }

  /**
   * What the clearance planner does with a move that has a target: it keeps a clear target;
   * otherwise it moves it to a usable sidestep; and it holds exactly when the target is blocked
   * and each of the eight sidesteps is outside the geofence or blocked.
   */
  lemma ClearancePlannerRefines(planner: AvoidancePlanner, action: Action, frame: Frame, mapping: MappingService)
    requires planner.ClearancePlanner? && Euclidean(mapping.metric)
    requires action.kind == MoveTo && action.x.Some? && action.y.Some?
    ensures
      var gap, step := Max(0.0, planner.minClearance), Max(0.0, planner.sidestep);
      var x, y, refined := action.x.value, action.y.value, RefineAction(planner, action, frame, mapping);
      && (refined.kind == Hold <==> NowhereToGo(mapping, x, y, frame, gap, step))
      && (refined.kind != Hold ==>
          && refined.kind == MoveTo && refined.speed == action.speed && refined.x.Some? && refined.y.Some?
          && (forall o | o in frame.obstacles :: Clear(refined.x.value, refined.y.value, o, gap))
          && (refined == action ||
              (Sidestep(step, x, y, refined.x.value, refined.y.value) &&
               Within(mapping.limit, refined.x.value, refined.y.value))))
      && ((forall o | o in frame.obstacles :: Clear(x, y, o, gap)) ==> refined == action)
  {
    var gap, step := Max(0.0, planner.minClearance), Max(0.0, planner.sidestep);
    var x, y := action.x.value, action.y.value;
    ClearAround(mapping, x, y, frame, gap);
    if !AtLeast(NearestDistance(mapping.metric, x, y, frame.obstacles), gap) {
      SearchCoversSidesteps(mapping, x, y, frame, gap, step);
    }
  }

  /** The order of preference of a sidestep: along one axis, y before x; then diagonally; each time up before down. */
  function Preference(dx: real, dy: real): nat {
    if dx == 0.0 then (if dy > 0.0 then 0 else 1)
    else if dy == 0.0 then (if dx > 0.0 then 2 else 3)
    else (if dx > 0.0 then 4 else 6) + (if dy > 0.0 then 0 else 1)
  }

  /** A move that is not kept goes to its most preferred sidestep that is inside the geofence and clear. */
  lemma SidestepIsMostPreferred(planner: AvoidancePlanner, action: Action, frame: Frame, mapping: MappingService,
                                u: real, v: real)
    requires planner.ClearancePlanner? && Euclidean(mapping.metric) && planner.sidestep > 0.0
    requires action.kind == MoveTo && action.x.Some? && action.y.Some?
    requires Sidestep(planner.sidestep, action.x.value, action.y.value, u, v)
    ensures var refined, gap := RefineAction(planner, action, frame, mapping), Max(0.0, planner.minClearance);
      var x, y := action.x.value, action.y.value;
      refined.kind == MoveTo && refined != action && refined.x.Some? && refined.y.Some? &&
      Preference(u - x, v - y) < Preference(refined.x.value - x, refined.y.value - y) ==>
        !Within(mapping.limit, u, v) || exists o :: o in frame.obstacles && !Clear(u, v, o, gap)
  {
    var gap, step := Max(0.0, planner.minClearance), planner.sidestep;
    var x, y := action.x.value, action.y.value;
    var refined := RefineAction(planner, action, frame, mapping);
    SidestepIsCandidate(step, x, y, u, v);
    PreferenceIsPlace(step);
    FoundIsMostPreferred(Offsets(step), (o: (real, real)) => Usable(mapping, x + o.0, y + o.1, frame, gap),
                         (u - x, v - y));
    ClearAround(mapping, u, v, frame, gap);
    assert x + (u - x) == u && y + (v - y) == v;
  }

  ghost predicate InOrderOfPreference(offsets: seq<(real, real)>) {
    forall i | 0 <= i < |offsets| :: Preference(offsets[i].0, offsets[i].1) == i
  }

  lemma PreferenceIsPlace(step: real)
    requires step > 0.0
    ensures InOrderOfPreference(Offsets(step))
  {
  }

  lemma FoundIsMostPreferred(offsets: seq<(real, real)>, good: ((real, real)) -> bool, other: (real, real))
    requires InOrderOfPreference(offsets) && other in offsets
    ensures var found := FirstWhere(offsets, good);
      found.Some? && Preference(other.0, other.1) < Preference(found.value.0, found.value.1) ==> !good(other)
  {
    var i := FirstWhereIsFirst(offsets, good);
    var j :| 0 <= j < |offsets| && offsets[j] == other;
  }

  /** Nothing but a move with a target is refined, and nothing without the clearance planner. */
  lemma OnlyMovesAreRefined(planner: AvoidancePlanner, action: Action, frame: Frame, mapping: MappingService)
    ensures RefineAction(planner, action, frame, mapping) != action ==>
      planner.ClearancePlanner? && action.kind == MoveTo && action.x.Some? && action.y.Some?
  {
  }

  lemma SearchCoversSidesteps(mapping: MappingService, x: real, y: real, frame: Frame, gap: real, step: real)
    requires Euclidean(mapping.metric) && gap >= 0.0
    ensures match FirstUsable(mapping, x, y, frame, gap, Offsets(step))
      case Some(o) =>
        && Sidestep(step, x, y, x + o.0, y + o.1) && Within(mapping.limit, x + o.0, y + o.1)
        && forall b | b in frame.obstacles :: Clear(x + o.0, y + o.1, b, gap)
      case None =>
        forall u, v | Sidestep(step, x, y, u, v) ::
          !Within(mapping.limit, u, v) || exists o :: o in frame.obstacles && !Clear(u, v, o, gap)
  {
    var _ := FirstUsableIsFirst(mapping, x, y, frame, gap, Offsets(step));
    match FirstUsable(mapping, x, y, frame, gap, Offsets(step))
    case Some(o) =>
      ClearAround(mapping, x + o.0, y + o.1, frame, gap);
    case None =>
      forall u, v | Sidestep(step, x, y, u, v)
        ensures !Within(mapping.limit, u, v) || exists o :: o in frame.obstacles && !Clear(u, v, o, gap)
      {
        SidestepIsCandidate(step, x, y, u, v);
        ClearAround(mapping, u, v, frame, gap);
      }
  }

  lemma SidestepIsCandidate(step: real, x: real, y: real, u: real, v: real)
    requires Sidestep(step, x, y, u, v)
    ensures (u - x, v - y) in Offsets(step)
  {
    var o := Offsets(step);
    var d := (u - x, v - y);
    assert d == o[0] || d == o[1] || d == o[2] || d == o[3] || d == o[4] || d == o[5] || d == o[6] || d == o[7];
  }

  lemma ClearAround(mapping: MappingService, x: real, y: real, frame: Frame, gap: real)
    requires Euclidean(mapping.metric) && gap >= 0.0
    ensures AtLeast(NearestDistance(mapping.metric, x, y, frame.obstacles), gap)
         <==> forall o | o in frame.obstacles :: Clear(x, y, o, gap)
  {
    NearestDistanceIsMinimum(mapping.metric, x, y, frame.obstacles, gap);
    forall o | o in frame.obstacles
      ensures EdgeDistance(mapping.metric, x, y, o) >= gap <==> Clear(x, y, o, gap)
    {
      EdgeDistanceMeansClear(mapping.metric, x, y, o, gap);
    }
  }
}
