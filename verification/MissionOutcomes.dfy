/** How every run comes out, told from its plan and what the environment decides, entry by entry. */
module MissionOutcomes {
  import opened Options
  import opened Models
  import opened Sensing
  import opened ObstacleAvoidance
  import opened SafetyKernel
  import opened EdgeSupervisor
  import opened MissionProofs

  // ---------- Why an entry is blocked ----------

  /** The rule behind a reason code is broken by an action that is about to run on this frame. */
  ghost predicate Broken(rig: Rig, state: VehicleState, frame: Frame, now: real, action: Action, reason: BlockReason) {
    var pose := EstimatePose(rig.localization, state, frame, now);
    var nearest := NearestDistance(rig.mapping.metric, pose.x, pose.y, frame.obstacles);
    var move := action.kind == MoveTo;
    match reason
    case LocalizationStale => !pose.isFresh
    case AdapterSpeedLimit => move && action.speed.Some? && action.speed.value > rig.primary.profile.maxSpeed
    case AdapterCapabilityUnsupported => action.kind == ReturnToHome && !rig.primary.profile.supportsReturnToHome
    case VehicleDisconnected => !state.connected
    case LocalizationUncertain => pose.positionStd > rig.policy.maxLocalizationStd
    case SensorDataStale => Max(0.0, now - frame.timestamp) > rig.policy.maxStaleness
    case SpeedExceedsPolicy => move && !(action.speed.Some? && action.speed.value <= rig.policy.maxSpeed)
    case BatteryBelowMotionThreshold => move && state.battery < rig.policy.minBatteryForMotion
    case StandoffViolated => move && nearest.Some? && nearest.value < rig.policy.minStandoff
    case MissingMoveTarget => move && !(action.x.Some? && action.y.Some?)
    case TargetXOutOfGeofence => move && action.x.Some? && Abs(action.x.value) > rig.policy.geofence
    case TargetYOutOfGeofence => move && action.y.Some? && Abs(action.y.value) > rig.policy.geofence
    case DisarmAwayFromHome => action.kind == Disarm && (Abs(pose.x) > 0.01 || Abs(pose.y) > 0.01)
    case _ => false
  }

  /** The reason speaks against handling the entry in this state. */
  ghost predicate Violates(rig: Rig, state: VehicleState, entry: Entry, reason: BlockReason) {
    match entry.observation
    case SensingFailed(detail) => reason == SensingError(detail)
    case SubsystemFailed => reason == SubsystemFailure
    case Observed(frame) =>
      Broken(rig, state, frame, entry.now, RefineAction(rig.planner, entry.action, frame, rig.mapping), reason)
  }

  /** The order in which the rules are checked. */
  function Rank(reason: BlockReason): nat {
    match reason
    case SensingError(_) => 0
    case SubsystemFailure => 1
    case LocalizationStale => 2
    case AdapterSpeedLimit => 3
    case AdapterCapabilityUnsupported => 4
    case VehicleDisconnected => 5
    case LocalizationUncertain => 6
    case SensorDataStale => 7
    case SpeedExceedsPolicy => 8
    case BatteryBelowMotionThreshold => 9
    case StandoffViolated => 10
    case MissingMoveTarget => 11
    case TargetXOutOfGeofence => 12
    case TargetYOutOfGeofence => 13
    case DisarmAwayFromHome => 14
    case TransportFailure => 15
  }

  /** An entry is blocked for the first violated rule, and for that reason exactly. */
  lemma BlockedForFirstViolation(rig: Rig, state: VehicleState, entry: Entry, reason: BlockReason)
    ensures Decide(rig, state, entry) == Block(reason) <==>
      && Violates(rig, state, entry, reason)
      && forall other | Rank(other) < Rank(reason) :: !Violates(rig, state, entry, other)
  {
    if Decide(rig, state, entry).Block? {
      DecisionIsFirst(rig, state, entry);
      var first := Decide(rig, state, entry).reason;
      if Violates(rig, state, entry, reason) && reason != first {
        assert Rank(reason) != Rank(first);
      }
    } else {
      NoViolation(rig, state, entry, reason);
    }
  }

  lemma DecisionIsFirst(rig: Rig, state: VehicleState, entry: Entry)
    requires Decide(rig, state, entry).Block?
    ensures var first := Decide(rig, state, entry).reason;
      && Violates(rig, state, entry, first)
      && forall other | Rank(other) < Rank(first) :: !Violates(rig, state, entry, other)
  {
    if entry.observation.Observed? {
      var frame := entry.observation.frame;
      KernelReasonIsFirst(rig, state, frame, entry.now, RefineAction(rig.planner, entry.action, frame, rig.mapping));
    }
  }

  lemma KernelReasonIsFirst(rig: Rig, state: VehicleState, frame: Frame, now: real, action: Action)
    ensures var first := Precheck(rig.policy, StateForChecks(rig, state, frame, now), action);
      first.Some? ==>
        && Broken(rig, state, frame, now, action, first.value) && Rank(first.value) > 4
        && forall other | 4 < Rank(other) < Rank(first.value) :: !Broken(rig, state, frame, now, action, other)
  {
  }

  lemma NoViolation(rig: Rig, state: VehicleState, entry: Entry, reason: BlockReason)
    requires Decide(rig, state, entry).Go?
    ensures !Violates(rig, state, entry, reason)
  {
  }

  /** An entry is admissible exactly if no rule speaks against it. */
  lemma AdmissibleIffNothingSpeaksAgainst(rig: Rig, state: VehicleState, entry: Entry)
    ensures Admissible(rig, state, entry) <==> forall reason :: !Violates(rig, state, entry, reason)
  {
    GoesIffAdmissible(rig, state, entry);
    if Decide(rig, state, entry).Go? {
      forall reason
        ensures !Violates(rig, state, entry, reason)
      {
        NoViolation(rig, state, entry, reason);
      }
    } else {
      DecisionIsFirst(rig, state, entry);
    }
  }

  // ---------- How a run comes out ----------

  /** Where the run stands when an entry comes that does not run, or after the last one; and how many ran. */
  ghost function Reached(rig: Rig, state: VehicleState, entries: seq<Entry>): (r: (nat, VehicleState))
    ensures r.0 <= |entries|
    decreases |entries|
  {
    if entries == [] || !(Admissible(rig, state, entries[0]) && Deliverable(rig, entries[0].onAction)) then (0, state)
    else
      var (n, at) := Reached(rig, AfterEntry(rig, state, entries[0]), entries[1..]);
      (n + 1, at)
  }

  /** The log of one delivery: the failover adapter is named if the primary one did not deliver. */
  function Delivery(rig: Rig, sends: Sends, kind: ActionType, event: Event): seq<Event> {
    (if rig.primary.Sim? || sends.primary then [] else [FailoverUsed(kind)]) + [event]
  }

  /** The log of the entries that ran. */
  function Deliveries(rig: Rig, entries: seq<Entry>): seq<Event> {
    if entries == [] || !entries[0].observation.Observed? then []
    else
      var kind := RefineAction(rig.planner, entries[0].action, entries[0].observation.frame, rig.mapping).kind;
      Delivery(rig, entries[0].onAction, kind, Exec(kind)) + Deliveries(rig, entries[1..])
  }

  /** How a run is secured: home if some adapter delivers the fallback. */
  function Secured(rig: Rig, state: VehicleState, sends: Sends): VehicleState {
    if Deliverable(rig, sends) then SentHome(state) else state
  }

  function SecuringEvents(rig: Rig, sends: Sends): seq<Event> {
    if Deliverable(rig, sends) then Delivery(rig, sends, ReturnToHome, Fallback) else [SystemFault]
  }

  lemma FallBackSecures(rig: Rig, state: VehicleState, sends: Sends, onError: Trail)
    ensures var t := FallBack(rig, state, sends, onError);
      if Deliverable(rig, sends) then
        t.state == SentHome(state) && t.events == SecuringEvents(rig, sends) && t.status == Halted
      else t == onError
  {
    ProjectionIsEffect(state, FALLBACK_ACTION);
  }

  lemma RunningEntry(rig: Rig, state: VehicleState, entry: Entry)
    requires Admissible(rig, state, entry) && Deliverable(rig, entry.onAction)
    ensures var t, kind := Step(rig, state, entry),
                           RefineAction(rig.planner, entry.action, entry.observation.frame, rig.mapping).kind;
      t.status == Running && t.state == AfterEntry(rig, state, entry) &&
      t.events == Delivery(rig, entry.onAction, kind, Exec(kind))
  {
    GoesIffAdmissible(rig, state, entry);
    GoesOnlyIfAllowed(rig, state, entry);
    DeliverableExecutes(rig, state, Decide(rig, state, entry).action, entry.onAction);
  }

  /** An inadmissible entry is blocked; an undelivered one is, too, and then a missing fallback is a fault. */
  ghost predicate Stopped(rig: Rig, at: VehicleState, entry: Entry, state: VehicleState, events: seq<Event>,
                          status: Status)
  {
    var admitted, answered := Admissible(rig, at, entry), Deliverable(rig, entry.onFallback);
    && events != [] && events[0].PolicyBlock?
    && (if admitted then events[0].reason == TransportFailure else Decide(rig, at, entry) == Block(events[0].reason))
    && state == Secured(rig, at, entry.onFallback)
    && events[1..] == (if answered || admitted then SecuringEvents(rig, entry.onFallback) else [])
    && status == if answered || admitted then Halted else Raised
  }

  lemma StoppingEntry(rig: Rig, state: VehicleState, entry: Entry)
    requires !(Admissible(rig, state, entry) && Deliverable(rig, entry.onAction))
    ensures var t := Step(rig, state, entry); Stopped(rig, state, entry, t.state, t.events, t.status)
  {
    GoesIffAdmissible(rig, state, entry);
    match Decide(rig, state, entry)
    case Block(reason) =>
      FallBackSecures(rig, state, entry.onFallback, Trail(state, [], [], Raised));
    case Go(action) =>
      DeliverableExecutes(rig, state, action, entry.onAction);
      FallBackSecures(rig, state, entry.onFallback, Logged(state, SystemFault, Halted));
  }

  /** A stretch that logs what ran and then, if there is another entry, the end that this one makes. */
  ghost predicate ComesTo(rig: Rig, at: VehicleState, ran: seq<Event>, next: seq<Entry>, t: Trail) {
    && ran <= t.events
    && if next == [] then t.state == at && t.events == ran && t.status == Running
       else Stopped(rig, at, next[0], t.state, t.events[|ran|..], t.status)
  }

  lemma ComesToMore(rig: Rig, at: VehicleState, ran: seq<Event>, next: seq<Entry>, step: Trail, t: Trail)
    requires ComesTo(rig, at, ran, next, t)
    ensures ComesTo(rig, at, step.events + ran, next, Chain(step, t))
  {
    assert (step.events + t.events)[|step.events + ran|..] == t.events[|ran|..];
  }

  /** The loop logs the deliveries of the entries that run, then the end of the one that does not. */
  ghost predicate LoopComesOut(rig: Rig, state: VehicleState, entries: seq<Entry>, t: Trail) {
    var (n, at) := Reached(rig, state, entries);
    ComesTo(rig, at, Deliveries(rig, entries[..n]), entries[n..], t)
  }

  lemma {:induction false} LoopOutcome(rig: Rig, state: VehicleState, entries: seq<Entry>)
    ensures LoopComesOut(rig, state, entries, Loop(rig, state, entries))
    decreases |entries|
  {
    if entries != [] {
      var entry := entries[0];
      if Admissible(rig, state, entry) && Deliverable(rig, entry.onAction) {
        RunningEntry(rig, state, entry);
        var step := Step(rig, state, entry);
        LoopOutcome(rig, step.state, entries[1..]);
        ReachedMore(rig, state, entries);
        LoopComesOutMore(rig, state, entries, step, Loop(rig, step.state, entries[1..]));
      } else {
        StoppingEntry(rig, state, entry);
        assert Loop(rig, state, entries).events[0..] == Step(rig, state, entry).events && entries[0..][0] == entry;
      }
    }
  }

  lemma ReachedMore(rig: Rig, state: VehicleState, entries: seq<Entry>)
    requires entries != [] && Admissible(rig, state, entries[0]) && Deliverable(rig, entries[0].onAction)
    ensures var (n, at) := Reached(rig, AfterEntry(rig, state, entries[0]), entries[1..]);
      Reached(rig, state, entries) == (n + 1, at)
  {
  }

  lemma DeliveriesMore(rig: Rig, entries: seq<Entry>, n: nat)
    requires n < |entries| && entries[0].observation.Observed?
    ensures var kind := RefineAction(rig.planner, entries[0].action, entries[0].observation.frame, rig.mapping).kind;
      Deliveries(rig, entries[..n + 1]) ==
        Delivery(rig, entries[0].onAction, kind, Exec(kind)) + Deliveries(rig, entries[1..][..n])
  {
    assert entries[..n + 1][0] == entries[0] && entries[..n + 1][1..] == entries[1..][..n];
  }

  lemma LoopComesOutMore(rig: Rig, state: VehicleState, entries: seq<Entry>, step: Trail, rest: Trail)
    requires entries != [] && entries[0].observation.Observed?
    requires var (n, at) := Reached(rig, step.state, entries[1..]); Reached(rig, state, entries) == (n + 1, at)
    requires var kind := RefineAction(rig.planner, entries[0].action, entries[0].observation.frame, rig.mapping).kind;
      step.events == Delivery(rig, entries[0].onAction, kind, Exec(kind))
    requires LoopComesOut(rig, step.state, entries[1..], rest)
    ensures LoopComesOut(rig, state, entries, Chain(step, rest))
  {
    var (n, at) := Reached(rig, step.state, entries[1..]);
    DeliveriesMore(rig, entries, n);
    assert entries[1..][n..] == entries[n + 1..];
    ComesToMore(rig, at, Deliveries(rig, entries[1..][..n]), entries[n + 1..], step, rest);
  }

  /** The state and the events that a returned run adds for a low battery: below ten percent while armed. */
  ghost predicate TailComesOut(rig: Rig, before: VehicleState, sends: Sends, after: VehicleState, events: seq<Event>) {
    if before.battery < 10.0 && before.armed
    then after == Secured(rig, before, sends) && events == SecuringEvents(rig, sends)
    else after == before && events == []
  }

  lemma TailOutcome(rig: Rig, state: VehicleState, sends: Sends)
    ensures var t := Tail(rig, state, sends); TailComesOut(rig, state, sends, t.state, t.events)
  {
    FallBackSecures(rig, state, sends, Logged(state, SystemFault, Halted));
  }

  /** A run as it comes out: what its loop left, and what its tail made of that unless an exception escaped. */
  ghost predicate ComesOut(rig: Rig, state: VehicleState, entries: seq<Entry>, onTail: Sends, run: Trail,
                           mid: VehicleState, log: seq<Event>)
  {
    var (n, at) := Reached(rig, state, entries);
    var ran, raised := Deliveries(rig, entries[..n]), run.status == Raised;
    && ran <= log <= run.events
    && (if n == |entries| then mid == at && log == ran && !raised
        else Stopped(rig, at, entries[n], mid, log[|ran|..], if raised then Raised else Halted))
    && (if raised then run.state == mid && run.events == log
        else TailComesOut(rig, mid, onTail, run.state, run.events[|log|..]))
  }

  /**
   * The outcome of any run, in full: its state, its events and whether an exception escapes. The entries
   * up to the first that is inadmissible or undelivered run and are logged, with the failover adapter where
   * it delivered. That entry is answered by a fallback if an adapter delivers one. If none does, a failed
   * send ends in a system fault, and anything else in an exception. A returned run that is armed on a low
   * battery is secured once more, by a fallback or a fault.
   */
  lemma RunOutcome(rig: Rig, state: VehicleState, entries: seq<Entry>, onTail: Sends)
    returns (mid: VehicleState, log: seq<Event>)
    ensures ComesOut(rig, state, entries, onTail, Run(rig, state, entries, onTail), mid, log)
  {
    var loop := Loop(rig, state, entries);
    LoopOutcome(rig, state, entries);
    TailOutcome(rig, loop.state, onTail);
    mid, log := loop.state, loop.events;
    assert loop.status != Raised ==>
      Run(rig, state, entries, onTail).events[|log|..] == Tail(rig, loop.state, onTail).events;
  }

  /** A blocked run whose fallback is delivered returns, and its block is answered by that fallback, at home. */
  lemma DeliveredFallbackIsUsed(rig: Rig, state: VehicleState, entries: seq<Entry>, onTail: Sends)
    requires var (n, _) := Reached(rig, state, entries);
      n < |entries| && Deliverable(rig, entries[n].onFallback)
    ensures var run := Run(rig, state, entries, onTail);
      run.status != Raised && AtHome(run.state) && Fallback in run.events
  {
    var mid, log := RunOutcome(rig, state, entries, onTail);
    AnsweredIsHome(rig, state, entries, onTail, Run(rig, state, entries, onTail), mid, log);
  }

  lemma AnsweredIsHome(rig: Rig, state: VehicleState, entries: seq<Entry>, onTail: Sends, run: Trail,
                       mid: VehicleState, log: seq<Event>)
    requires ComesOut(rig, state, entries, onTail, run, mid, log)
    requires var (n, _) := Reached(rig, state, entries);
      n < |entries| && Deliverable(rig, entries[n].onFallback)
    ensures run.status != Raised && AtHome(run.state) && Fallback in run.events
  {
    var (n, at) := Reached(rig, state, entries);
    var answer := log[|Deliveries(rig, entries[..n])|..][1..];
    assert answer[|answer| - 1] == Fallback;
    assert Fallback in log;
  }

  lemma {:induction false} DeliveriesFaultless(rig: Rig, entries: seq<Entry>)
    ensures SystemFault !in Deliveries(rig, entries) && Fallback !in Deliveries(rig, entries)
  {
    if entries != [] {
      DeliveriesFaultless(rig, entries[1..]);
    }
  }

  /**
   * A system fault is logged exactly if a guarded fallback was due and no adapter delivered it: after a
   * failed send of an admissible entry, or for the low battery with which the loop ended.
   */
  lemma FaultIff(rig: Rig, state: VehicleState, entries: seq<Entry>, onTail: Sends)
    ensures var run := Run(rig, state, entries, onTail);
      var (n, at) := Reached(rig, state, entries);
      var mid := if n < |entries| then Secured(rig, at, entries[n].onFallback) else at;
      SystemFault in run.events <==>
        || (n < |entries| && Admissible(rig, at, entries[n]) && !Deliverable(rig, entries[n].onFallback))
        || (run.status != Raised && mid.battery < 10.0 && mid.armed && !Deliverable(rig, onTail))
  {
    var mid, log := RunOutcome(rig, state, entries, onTail);
    FaultsComeOut(rig, state, entries, onTail, Run(rig, state, entries, onTail), mid, log);
  }

  lemma FaultsComeOut(rig: Rig, state: VehicleState, entries: seq<Entry>, onTail: Sends, run: Trail,
                      mid: VehicleState, log: seq<Event>)
    requires ComesOut(rig, state, entries, onTail, run, mid, log)
    ensures var (n, at) := Reached(rig, state, entries);
      && mid == (if n < |entries| then Secured(rig, at, entries[n].onFallback) else at)
      && (SystemFault in run.events <==>
            || (n < |entries| && Admissible(rig, at, entries[n]) && !Deliverable(rig, entries[n].onFallback))
            || (run.status != Raised && mid.battery < 10.0 && mid.armed && !Deliverable(rig, onTail)))
  {
    var (n, at) := Reached(rig, state, entries);
    var ran := Deliveries(rig, entries[..n]);
    DeliveriesFaultless(rig, entries[..n]);
    FoundInPart(log, |ran|, SystemFault);
    FoundInPart(run.events, |log|, SystemFault);
    if n < |entries| {
      StoppedFaultIff(rig, at, entries[n], mid, log[|ran|..], if run.status == Raised then Raised else Halted);
    }
    if run.status != Raised {
      TailFaultIff(rig, mid, onTail, run.state, run.events[|log|..]);
    }
  }

  lemma FoundInPart(events: seq<Event>, k: nat, e: Event)
    requires k <= |events|
    ensures e in events <==> e in events[..k] || e in events[k..]
  {
    assert events == events[..k] + events[k..];
  }

  lemma TailFaultIff(rig: Rig, before: VehicleState, sends: Sends, after: VehicleState, events: seq<Event>)
    requires TailComesOut(rig, before, sends, after, events)
    ensures SystemFault in events <==> before.battery < 10.0 && before.armed && !Deliverable(rig, sends)
  {
  }

  lemma StoppedFaultIff(rig: Rig, at: VehicleState, entry: Entry, state: VehicleState, events: seq<Event>,
                        status: Status)
    requires Stopped(rig, at, entry, state, events, status)
    ensures SystemFault in events <==> Admissible(rig, at, entry) && !Deliverable(rig, entry.onFallback)
  {
    assert events == [events[0]] + events[1..];
  }

  // ---------- Arming ----------

  /** Whether the vehicle is armed after these events: the last arming or disarming decides. */
  function ArmedAfter(armed: bool, events: seq<Event>): bool {
    if events == [] then armed
    else if events[|events| - 1] == Exec(Arm) then true
    else if events[|events| - 1] == Exec(Disarm) then false
    else ArmedAfter(armed, events[..|events| - 1])
  }

  lemma {:induction false} ArmedConcat(armed: bool, a: seq<Event>, b: seq<Event>)
    ensures ArmedAfter(armed, a + b) == ArmedAfter(ArmedAfter(armed, a), b)
  {
    if b == [] {
      assert a + b == a;
    } else {
      ArmedConcat(armed, a, b[..|b| - 1]);
      assert (a + b)[..|a + b| - 1] == a + b[..|b| - 1];
    }
  }

  lemma ArmedUnchanged(armed: bool, events: seq<Event>)
    requires Exec(Arm) !in events && Exec(Disarm) !in events
    ensures ArmedAfter(armed, events) == armed
  {
    if events != [] {
      assert events == events[..|events| - 1] + [events[|events| - 1]];
      ArmedUnchanged(armed, events[..|events| - 1]);
    }
  }

  lemma ArmedByStep(rig: Rig, state: VehicleState, entry: Entry)
    ensures var t := Step(rig, state, entry); t.state.armed == ArmedAfter(state.armed, t.events)
  {
    if Admissible(rig, state, entry) && Deliverable(rig, entry.onAction) {
      RunningEntry(rig, state, entry);
      var action := RefineAction(rig.planner, entry.action, entry.observation.frame, rig.mapping);
      ProjectionIsEffect(state, action);
      var used := Delivery(rig, entry.onAction, action.kind, Exec(action.kind));
      ArmedUnchanged(state.armed, used[..|used| - 1]);
    } else {
      StoppingEntry(rig, state, entry);
      ArmedUnchanged(state.armed, Step(rig, state, entry).events);
    }
  }

  lemma {:induction false} ArmedByLoop(rig: Rig, state: VehicleState, entries: seq<Entry>)
    ensures var t := Loop(rig, state, entries); t.state.armed == ArmedAfter(state.armed, t.events)
    decreases |entries|
  {
    if entries != [] {
      ArmedByStep(rig, state, entries[0]);
      var step := Step(rig, state, entries[0]);
      if step.status == Running {
        ArmedByLoop(rig, step.state, entries[1..]);
        ArmedConcat(state.armed, step.events, Loop(rig, step.state, entries[1..]).events);
      }
    }
  }

  lemma ArmedByTail(rig: Rig, state: VehicleState, sends: Sends)
    ensures var t := Tail(rig, state, sends); t.state.armed == state.armed == ArmedAfter(state.armed, t.events)
  {
    TailOutcome(rig, state, sends);
    ArmedUnchanged(state.armed, Tail(rig, state, sends).events);
  }

  /** After any run, the vehicle is armed or not as the last arming or disarming in the event list left it. */
  lemma ArmingIsLogged(rig: Rig, state: VehicleState, entries: seq<Entry>, onTail: Sends)
    ensures var run := Run(rig, state, entries, onTail); run.state.armed == ArmedAfter(state.armed, run.events)
  {
    ArmedByLoop(rig, state, entries);
    var loop := Loop(rig, state, entries);
    if loop.status != Raised {
      ArmedByTail(rig, loop.state, onTail);
      ArmedConcat(state.armed, loop.events, Tail(rig, loop.state, onTail).events);
    }
  }
}
