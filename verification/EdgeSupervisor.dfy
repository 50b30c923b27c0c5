/** The plan loop: sense, refine, check, execute, with failover and a return-to-home fallback. */
module EdgeSupervisor {
  import opened Options
  import opened Models
  import opened Sensing
  import opened ObstacleAvoidance
  import opened SafetyKernel
  import opened VehicleAdapter

  datatype Rig = Rig(
    policy: PolicyConfig,
    primary: Adapter,
    failover: Option<Adapter>,
    localization: LocalizationEngine,
    planner: AvoidancePlanner,
    mapping: MappingService)

  /** What the perception pipeline yields: a frame, an adapter error with its detail, or another exception. */
  datatype Observation = Observed(frame: Frame) | SensingFailed(detail: string) | SubsystemFailed

  /** Whether a send through each adapter would be delivered. */
  datatype Sends = Sends(primary: bool, failover: bool)

  /** A plan entry with everything the environment decides while it is handled. */
  datatype Entry = Entry(action: Action, observation: Observation, now: real, onAction: Sends, onFallback: Sends)

  datatype Decision = Go(action: Action) | Block(reason: BlockReason)

  /** The state the kernel checks: the vehicle state overlaid with what was sensed. */
  function StateForChecks(rig: Rig, state: VehicleState, frame: Frame, now: real): VehicleState {
    var pose := EstimatePose(rig.localization, state, frame, now);
    state.(x := pose.x, y := pose.y, heading := pose.heading, vx := pose.vx, vy := pose.vy,
           positionStd := pose.positionStd, sensorAge := Max(0.0, now - frame.timestamp),
           nearestObstacle := NearestDistance(rig.mapping.metric, pose.x, pose.y, frame.obstacles))
  }

  predicate ExceedsAdapterSpeed(adapter: Adapter, action: Action) {
    action.kind == MoveTo && action.speed.Some? && action.speed.value > adapter.profile.maxSpeed
  }

  function Decide(rig: Rig, state: VehicleState, entry: Entry): Decision {
    match entry.observation
    case SensingFailed(detail) => Block(SensingError(detail))
    case SubsystemFailed => Block(SubsystemFailure)
    case Observed(frame) =>
      if !EstimatePose(rig.localization, state, frame, entry.now).isFresh then Block(LocalizationStale)
      else
        var refined := RefineAction(rig.planner, entry.action, frame, rig.mapping);
        if ExceedsAdapterSpeed(rig.primary, refined) then Block(AdapterSpeedLimit)
        else if !Supports(rig.primary, refined) then Block(AdapterCapabilityUnsupported)
        else match Precheck(rig.policy, StateForChecks(rig, state, frame, entry.now), refined)
        case Some(reason) => Block(reason)
        case None => Go(refined)
  }

  /** One change of the vehicle state, with its cause. */
  datatype Leg =
    | Executed(entry: Entry, action: Action, before: VehicleState, after: VehicleState)
    | FellBack(before: VehicleState, after: VehicleState)

  datatype Status = Running | Halted | Raised

  /** A stretch of a run: where it ends, what it logged, how the state moved, and why it ended. */
  datatype Trail = Trail(state: VehicleState, events: seq<Event>, legs: seq<Leg>, status: Status)

  function Chain(a: Trail, b: Trail): Trail {
    Trail(b.state, a.events + b.events, a.legs + b.legs, b.status)
  }

  /** The state and the failover event an execution leaves; `None` when its error escapes. */
  function ExecuteAction(rig: Rig, state: VehicleState, action: Action, sends: Sends)
    : Option<(VehicleState, seq<Event>)>
  {
    match Execute(rig.primary, state, action, sends.primary)
    case Some(next) => Some((next, []))
    case None =>
      if rig.failover.None? then None
      else match Execute(rig.failover.value, state, action, sends.failover)
      case None => None
      case Some(next) => Some((next, [FailoverUsed(action.kind)]))
  }

  /** Return to home; `onError` is what becomes of the run when no adapter delivers it. */
  function FallBack(rig: Rig, state: VehicleState, sends: Sends, onError: Trail): Trail {
    match ExecuteAction(rig, state, FALLBACK_ACTION, sends)
    case None => onError
    case Some((next, used)) => Trail(next, used + [Fallback], [FellBack(state, next)], Halted)
  }

  function Logged(state: VehicleState, event: Event, status: Status): Trail {
    Trail(state, [event], [], status)
  }

  /** One iteration of the loop. Only the fallback after a failed execution is guarded. */
  function Step(rig: Rig, state: VehicleState, entry: Entry): Trail {
    match Decide(rig, state, entry)
    case Block(reason) =>
      Chain(Logged(state, PolicyBlock(reason), Running),
            FallBack(rig, state, entry.onFallback, Trail(state, [], [], Raised)))
    case Go(action) =>
      match ExecuteAction(rig, state, action, entry.onAction)
      case Some((next, used)) =>
        Trail(next, used + [Exec(action.kind)], [Executed(entry, action, state, next)], Running)
      case None =>
        Chain(Logged(state, PolicyBlock(TransportFailure), Running),
              FallBack(rig, state, entry.onFallback, Logged(state, SystemFault, Halted)))
  }

  function Loop(rig: Rig, state: VehicleState, entries: seq<Entry>): Trail
    decreases |entries|
  {
    if entries == [] then Trail(state, [], [], Running)
    else
      var first := Step(rig, state, entries[0]);
      if first.status == Running then Chain(first, Loop(rig, first.state, entries[1..])) else first
  }

  predicate LowBattery(state: VehicleState) {
    state.battery < 10.0 && state.armed
  }

  function Tail(rig: Rig, state: VehicleState, sends: Sends): Trail {
    if LowBattery(state) then FallBack(rig, state, sends, Logged(state, SystemFault, Halted))
    else Trail(state, [], [], Halted)
  }

  /** A whole run: the loop, then the low-battery tail unless an exception escaped the loop. */
  function Run(rig: Rig, state: VehicleState, entries: seq<Entry>, onTail: Sends): Trail {
    var loop := Loop(rig, state, entries);
    if loop.status == Raised then loop else Chain(loop, Tail(rig, loop.state, onTail))
  }

  /** Runs one action through the primary and then the failover adapter, appending to the event list. */
  method ExecuteLogged(rig: Rig, state: VehicleState, action: Action, sends: Sends, events: seq<Event>)
    returns (next: Option<VehicleState>, log: seq<Event>)
    ensures match ExecuteAction(rig, state, action, sends)
      case None => next == None && log == events
      case Some((s, used)) => next == Some(s) && log == events + used
  {
    log := events;
    next := Execute(rig.primary, state, action, sends.primary);
    if next.None? && rig.failover.Some? {
      next := Execute(rig.failover.value, state, action, sends.failover);
      if next.Some? {
        log := log + [FailoverUsed(action.kind)];
      }
    }
  }

  /** Falls back to home and logs it; `next` is `None` when no adapter delivers it. */
  method FallBackLogged(rig: Rig, state: VehicleState, sends: Sends, events: seq<Event>)
    returns (next: Option<VehicleState>, log: seq<Event>)
    ensures match ExecuteAction(rig, state, FALLBACK_ACTION, sends)
      case None => next == None && log == events
      case Some((s, used)) => next == Some(s) && log == events + used + [Fallback]
  {
    next, log := ExecuteLogged(rig, state, FALLBACK_ACTION, sends, events);
    if next.Some? {
      log := log + [Fallback];
    }
  }

  /** The body of the loop for one plan entry. */
  method HandleEntry(rig: Rig, state: VehicleState, entry: Entry, events: seq<Event>)
    returns (next: VehicleState, log: seq<Event>, status: Status)
    ensures var step := Step(rig, state, entry);
      next == step.state && log == events + step.events && status == step.status
  {
    next := state;
    var moved: Option<VehicleState>;
    match Decide(rig, state, entry) {
      case Block(reason) =>
        moved, log := FallBackLogged(rig, state, entry.onFallback, events + [PolicyBlock(reason)]);
        status := if moved.Some? then Halted else Raised;
      case Go(action) =>
        moved, log := ExecuteLogged(rig, state, action, entry.onAction, events);
        if moved.Some? {
          log, status := log + [Exec(action.kind)], Running;
        } else {
          moved, log := FallBackLogged(rig, state, entry.onFallback, log + [PolicyBlock(TransportFailure)]);
          if moved.None? {
            log := log + [SystemFault];
          }
          status := Halted;
        }
    }
    if moved.Some? {
      next := moved.value;
    }
  }

  /** The first `i` entries are done; the loop stands at `done`, whose legs need not be known. */
  ghost predicate Progress(rig: Rig, initial: VehicleState, entries: seq<Entry>, i: nat, state: VehicleState,
                           events: seq<Event>, status: Status)
    requires i <= |entries|
  {
    var all := Loop(rig, initial, entries);
    var rest := if status == Running then Loop(rig, state, entries[i..]) else Trail(state, [], [], status);
    all.state == rest.state && all.events == events + rest.events && all.status == rest.status
  }

  lemma LoopUnfolds(rig: Rig, state: VehicleState, entries: seq<Entry>, i: nat, step: Trail)
    requires i < |entries| && step == Step(rig, state, entries[i])
    ensures Loop(rig, state, entries[i..]) ==
      if step.status == Running then Chain(step, Loop(rig, step.state, entries[i + 1..])) else step
  {
    assert entries[i..][0] == entries[i] && entries[i..][1..] == entries[i + 1..];
  }

  lemma ProgressStep(rig: Rig, initial: VehicleState, entries: seq<Entry>, i: nat, state: VehicleState,
                     events: seq<Event>, step: Trail)
    requires i < |entries| && Progress(rig, initial, entries, i, state, events, Running)
    requires Loop(rig, state, entries[i..]) ==
      if step.status == Running then Chain(step, Loop(rig, step.state, entries[i + 1..])) else step
    ensures Progress(rig, initial, entries, i + 1, step.state, events + step.events, step.status)
  {
    RestOf(Loop(rig, initial, entries), Loop(rig, state, entries[i..]), step,
           Loop(rig, step.state, entries[i + 1..]), events);
  }

  lemma RestOf(all: Trail, rest: Trail, step: Trail, further: Trail, events: seq<Event>)
    requires all.state == rest.state && all.events == events + rest.events && all.status == rest.status
    requires rest == if step.status == Running then Chain(step, further) else step
    ensures var next := if step.status == Running then further else Trail(step.state, [], [], step.status);
      all.state == next.state && all.events == events + step.events + next.events && all.status == next.status
  {
    assert events + (step.events + further.events) == events + step.events + further.events;
    assert events + step.events + [] == events + step.events;
  }

  /** The loop of the supervisor, state and event list updated in place. */
  method RunLoop(rig: Rig, initial: VehicleState, entries: seq<Entry>)
    returns (state: VehicleState, events: seq<Event>, status: Status)
    ensures var loop := Loop(rig, initial, entries);
      state == loop.state && events == loop.events && status == loop.status
  {
    state, events, status := initial, [], Running;
    var i := 0;
    assert entries[0..] == entries;
    while i < |entries| && status == Running
      invariant 0 <= i <= |entries|
      invariant Progress(rig, initial, entries, i, state, events, status)
    {
      ghost var step := Step(rig, state, entries[i]);
      LoopUnfolds(rig, state, entries, i, step);
      ProgressStep(rig, initial, entries, i, state, events, step);
      state, events, status := HandleEntry(rig, state, entries[i], events);
      i := i + 1;
    }
  }

  /** The whole run; `raised` is an exception that escapes the loop. */
  method RunPlan(rig: Rig, initial: VehicleState, entries: seq<Entry>, onTail: Sends)
    returns (raised: bool, state: VehicleState, events: seq<Event>)
    ensures var run := Run(rig, initial, entries, onTail);
      raised == (run.status == Raised) && state == run.state && events == run.events
  {
    var status;
    state, events, status := RunLoop(rig, initial, entries);
    raised := status == Raised;
    if !raised && LowBattery(state) {
      var next;
      next, events := FallBackLogged(rig, state, onTail, events);
      if next.Some? {
        state := next.value;
      } else {
        events := events + [SystemFault];
      }
    }
  }
}
