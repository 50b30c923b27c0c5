/** Properties of whole runs of the supervisor. */
module MissionProofs {
  import opened Options
  import opened Models
  import opened Sensing
  import opened ObstacleAvoidance
  import opened SafetyKernel
  import opened VehicleAdapter
  import opened EdgeSupervisor
  import PlanVerifier

  // ---------- Failover transparency ----------

  /** The event list without its failover entries. */
  function Erase(events: seq<Event>): seq<Event> {
    if events == [] then []
    else if events[0].FailoverUsed? then Erase(events[1..])
    else [events[0]] + Erase(events[1..])
  }

  lemma {:induction false} EraseConcat(a: seq<Event>, b: seq<Event>)
    ensures Erase(a + b) == Erase(a) + Erase(b)
  {
    if a == [] {
      assert a + b == b;
    } else {
      EraseConcat(a[1..], b);
      assert (a + b)[0] == a[0] && (a + b)[1..] == a[1..] + b;
    }
  }

  /** The same trail, up to failover entries. */
  ghost predicate SameUpToFailover(t: Trail, u: Trail) {
    t.state == u.state && t.legs == u.legs && t.status == u.status && Erase(t.events) == u.events
  }

  ghost predicate Backed(rig: Rig) {
    rig.primary.Transport? && rig.failover.Some? && rig.failover.value.Sim?
  }

  /** The rig whose primary is the simulator with the same capability profile. */
  function Simulated(rig: Rig): Rig {
    rig.(primary := Sim(rig.primary.profile), failover := None)
  }

  lemma BackedExecution(rig: Rig, state: VehicleState, action: Action, sends: Sends)
    requires Backed(rig)
    ensures var r := ExecuteAction(rig, state, action, sends);
      r.Some? && r.value.0 == Project(state, action) && Erase(r.value.1) == []
    ensures ExecuteAction(Simulated(rig), state, action, sends) == Some((Project(state, action), []))
  {
  }

  lemma BackedFallBack(rig: Rig, state: VehicleState, sends: Sends, onError: Trail, onError': Trail)
    requires Backed(rig)
    ensures SameUpToFailover(FallBack(rig, state, sends, onError), FallBack(Simulated(rig), state, sends, onError'))
    ensures FallBack(rig, state, sends, onError).status == Halted
  {
    BackedExecution(rig, state, FALLBACK_ACTION, sends);
    var used := ExecuteAction(rig, state, FALLBACK_ACTION, sends).value.1;
    EraseConcat(used, [Fallback]);
  }

  lemma BackedStep(rig: Rig, state: VehicleState, entry: Entry)
    requires Backed(rig)
    ensures SameUpToFailover(Step(rig, state, entry), Step(Simulated(rig), state, entry))
    ensures Step(rig, state, entry).status != Raised
  {
    assert Decide(rig, state, entry) == Decide(Simulated(rig), state, entry);
    match Decide(rig, state, entry)
    case Block(reason) =>
      var sim := Simulated(rig);
      var onError := Trail(state, [], [], Raised);
      BackedFallBack(rig, state, entry.onFallback, onError, onError);
      EraseConcat([PolicyBlock(reason)], FallBack(rig, state, entry.onFallback, onError).events);
      assert Erase([PolicyBlock(reason)]) == [PolicyBlock(reason)];
    case Go(action) =>
      BackedExecution(rig, state, action, entry.onAction);
      EraseConcat(ExecuteAction(rig, state, action, entry.onAction).value.1, [Exec(action.kind)]);
      assert Erase([Exec(action.kind)]) == [Exec(action.kind)];
  }

  lemma ChainUpToFailover(a: Trail, b: Trail, a': Trail, b': Trail)
    requires SameUpToFailover(a, a') && SameUpToFailover(b, b')
    ensures SameUpToFailover(Chain(a, b), Chain(a', b'))
  {
    EraseConcat(a.events, b.events);
  }

  lemma {:induction false} BackedLoop(rig: Rig, state: VehicleState, entries: seq<Entry>)
    requires Backed(rig)
    ensures SameUpToFailover(Loop(rig, state, entries), Loop(Simulated(rig), state, entries))
    ensures Loop(rig, state, entries).status != Raised
    decreases |entries|
  {
    if entries != [] {
      BackedStep(rig, state, entries[0]);
      var step, step' := Step(rig, state, entries[0]), Step(Simulated(rig), state, entries[0]);
      if step.status == Running {
        BackedLoop(rig, step.state, entries[1..]);
        ChainUpToFailover(step, Loop(rig, step.state, entries[1..]),
                          step', Loop(Simulated(rig), step.state, entries[1..]));
      }
    }
  }

  /**
   * A transport primary backed by a simulator always returns, in exactly the state and through exactly
   * the moves of the simulator-only run, and logs the same events apart from its failover entries.
   */
  lemma FailoverIsTransparent(rig: Rig, state: VehicleState, entries: seq<Entry>, onTail: Sends)
    requires Backed(rig)
    ensures var run, reference := Run(rig, state, entries, onTail), Run(Simulated(rig), state, entries, onTail);
      && run.status != Raised && reference.status != Raised
      && run.state == reference.state && run.legs == reference.legs
      && Erase(run.events) == reference.events
  {
    BackedLoop(rig, state, entries);
    var loop, loop' := Loop(rig, state, entries), Loop(Simulated(rig), state, entries);
    var onError := Logged(loop.state, SystemFault, Halted);
    BackedFallBack(rig, loop.state, onTail, onError, onError);
    ChainUpToFailover(loop, Tail(rig, loop.state, onTail), loop', Tail(Simulated(rig), loop.state, onTail));
  }

  // ---------- Battery conservation ----------

  function Count(events: seq<Event>, e: Event): nat {
    if events == [] then 0 else (if events[0] == e then 1 else 0) + Count(events[1..], e)
  }

  lemma {:induction false} CountConcat(a: seq<Event>, b: seq<Event>, e: Event)
    ensures Count(a + b, e) == Count(a, e) + Count(b, e)
  {
    if a == [] {
      assert a + b == b;
    } else {
      CountConcat(a[1..], b, e);
      assert (a + b)[1..] == a[1..] + b;
    }
  }

  /** The charge that the event list accounts for. */
  function Spent(events: seq<Event>): real {
    0.2 * (Count(events, Exec(MoveTo)) + Count(events, Exec(ReturnToHome)) + Count(events, Fallback)) as real
    + 0.05 * Count(events, Exec(Hold)) as real
  }

  lemma SpentConcat(a: seq<Event>, b: seq<Event>)
    ensures Spent(a + b) == Spent(a) + Spent(b)
  {
    CountConcat(a, b, Exec(MoveTo));
    CountConcat(a, b, Exec(ReturnToHome));
    CountConcat(a, b, Fallback);
    CountConcat(a, b, Exec(Hold));
  }

  ghost predicate Charged(from: VehicleState, t: Trail) {
    t.state.battery == Max(0.0, from.battery - Spent(t.events))
  }

  /** Clamping at each step does not lose charge, because nothing ever charges the battery. */
  lemma ChargedChain(from: VehicleState, a: Trail, b: Trail)
    requires Charged(from, a) && Charged(a.state, b)
    ensures Charged(from, Chain(a, b))
  {
    SpentConcat(a.events, b.events);
  }

  lemma SpentOne(e: Event)
    ensures Spent([]) == 0.0
    ensures Spent([e]) == if e in {Exec(MoveTo), Exec(ReturnToHome), Fallback} then 0.2
                          else if e == Exec(Hold) then 0.05 else 0.0
  {
    assert [e][1..] == [];
    assert forall f :: Count([e], f) == if e == f then 1 else 0;
  }

  lemma ChargedExecution(rig: Rig, state: VehicleState, action: Action, sends: Sends)
    requires state.battery >= 0.0
    ensures match ExecuteAction(rig, state, action, sends)
      case None => true
      case Some((next, used)) => next == Project(state, action) && Spent(used) == 0.0
  {
    SpentOne(FailoverUsed(action.kind));
  }

  lemma ChargedFallBack(rig: Rig, state: VehicleState, sends: Sends, onError: Trail)
    requires state.battery >= 0.0 && Charged(state, onError)
    ensures Charged(state, FallBack(rig, state, sends, onError))
  {
    ChargedExecution(rig, state, FALLBACK_ACTION, sends);
    match ExecuteAction(rig, state, FALLBACK_ACTION, sends)
    case None =>
    case Some((next, used)) =>
      SpentConcat(used, [Fallback]);
      SpentOne(Fallback);
  }

  lemma GoesOnlyIfAllowed(rig: Rig, state: VehicleState, entry: Entry)
    requires Decide(rig, state, entry).Go?
    ensures var action := Decide(rig, state, entry).action;
      && entry.observation.Observed?
      && action == RefineAction(rig.planner, entry.action, entry.observation.frame, rig.mapping)
      && Precheck(rig.policy, StateForChecks(rig, state, entry.observation.frame, entry.now), action) == None
      && !ExceedsAdapterSpeed(rig.primary, action) && Supports(rig.primary, action)
      && EstimatePose(rig.localization, state, entry.observation.frame, entry.now).isFresh
  {
  }

  lemma ChargedStep(rig: Rig, state: VehicleState, entry: Entry)
    requires state.battery >= 0.0
    ensures Charged(state, Step(rig, state, entry))
  {
    SpentOne(SystemFault);
    match Decide(rig, state, entry)
    case Block(reason) =>
      var onError := Trail(state, [], [], Raised);
      SpentOne(PolicyBlock(reason));
      ChargedFallBack(rig, state, entry.onFallback, onError);
      ChargedChain(state, Logged(state, PolicyBlock(reason), Running),
                 FallBack(rig, state, entry.onFallback, onError));
    case Go(action) =>
      ChargedExecution(rig, state, action, entry.onAction);
      match ExecuteAction(rig, state, action, entry.onAction)
      case Some((next, used)) =>
        GoesOnlyIfAllowed(rig, state, entry);
        SpentConcat(used, [Exec(action.kind)]);
        SpentOne(Exec(action.kind));
      case None =>
        var onError := Logged(state, SystemFault, Halted);
        SpentOne(PolicyBlock(TransportFailure));
        ChargedFallBack(rig, state, entry.onFallback, onError);
        ChargedChain(state, Logged(state, PolicyBlock(TransportFailure), Running),
                     FallBack(rig, state, entry.onFallback, onError));
  }

  lemma {:induction false} ChargedLoop(rig: Rig, state: VehicleState, entries: seq<Entry>)
    requires state.battery >= 0.0
    ensures Charged(state, Loop(rig, state, entries))
    decreases |entries|
  {
    if entries == [] {
      SpentOne(Fallback);
    } else {
      ChargedStep(rig, state, entries[0]);
      var step := Step(rig, state, entries[0]);
      if step.status == Running {
        ChargedLoop(rig, step.state, entries[1..]);
        ChargedChain(state, step, Loop(rig, step.state, entries[1..]));
      }
    }
  }

  /**
   * The final charge is read off the event list alone: 0.2 for every executed move or return and every
   * fallback, 0.05 for every hold, clamped once at zero, whatever failed on the way, even when an
   * exception escapes.
   */
  lemma ChargeIsConserved(rig: Rig, state: VehicleState, entries: seq<Entry>, onTail: Sends)
    requires state.battery >= 0.0
    ensures var run := Run(rig, state, entries, onTail);
      run.state.battery == Max(0.0, state.battery - Spent(run.events))
  {
    ChargedLoop(rig, state, entries);
    var loop := Loop(rig, state, entries);
    if loop.status != Raised {
      SpentOne(SystemFault);
      ChargedFallBack(rig, loop.state, onTail, Logged(loop.state, SystemFault, Halted));
      ChargedChain(state, loop, Tail(rig, loop.state, onTail));
    }
  }

  // ---------- The language of events ----------

  /**
   * A run executes actions (`Ready`), each perhaps through the failover adapter (`Recovering`); a policy
   * block (`Blocked`) is answered by one fallback or fault (`Secured`); a low battery is answered by one
   * last fallback or fault (`Done`).
   */
  datatype Phase =
    | Ready
    | Recovering(kind: ActionType)
    | Blocked
    | BlockedRecovering
    | Secured
    | SecuredRecovering
    | Done
    | Rejected

  function Advance(p: Phase, e: Event): Phase {
    match (p, e)
    case (Ready, FailoverUsed(k)) => Recovering(k)
    case (Ready, Exec(_)) => Ready
    case (Ready, PolicyBlock(_)) => Blocked
    case (Ready, _) => Done
    case (Recovering(k), Exec(j)) => if j == k then Ready else Rejected
    case (Recovering(ReturnToHome), Fallback) => Done
    case (Blocked, FailoverUsed(ReturnToHome)) => BlockedRecovering
    case (Blocked, Fallback) => Secured
    case (Blocked, SystemFault) => Secured
    case (BlockedRecovering, Fallback) => Secured
    case (Secured, FailoverUsed(ReturnToHome)) => SecuredRecovering
    case (Secured, Fallback) => Done
    case (Secured, SystemFault) => Done
    case (SecuredRecovering, Fallback) => Done
    case _ => Rejected
  }

  function PhaseAfter(p: Phase, events: seq<Event>): Phase
    decreases |events|
  {
    if events == [] then p else PhaseAfter(Advance(p, events[0]), events[1..])
  }

  predicate Complete(events: seq<Event>) {
    PhaseAfter(Ready, events) in {Ready, Secured, Done}
  }

  lemma {:induction false} PhaseConcat(p: Phase, a: seq<Event>, b: seq<Event>)
    ensures PhaseAfter(p, a + b) == PhaseAfter(PhaseAfter(p, a), b)
    decreases |a|
  {
    if a == [] {
      assert a + b == b;
    } else {
      PhaseConcat(Advance(p, a[0]), a[1..], b);
      assert (a + b)[1..] == a[1..] + b;
    }
  }

  lemma PhaseOne(p: Phase, e: Event)
    ensures PhaseAfter(p, [e]) == Advance(p, e)
  {
    assert [e][1..] == [];
  }

  /** No execution, and no second block, once a block has been logged. */
  lemma {:induction false} NothingRunsAfterBlock(events: seq<Event>, i: nat, j: nat)
    requires Complete(events) && i < j < |events| && events[i].PolicyBlock?
    ensures !events[j].Exec? && !events[j].PolicyBlock?
  {
    assert events == events[..i] + events[i..];
    PhaseConcat(Ready, events[..i], events[i..]);
    BlockedSuffix(PhaseAfter(Ready, events[..i]), events[i..], j - i);
  }

  lemma {:induction false} BlockedSuffix(p: Phase, events: seq<Event>, k: nat)
    requires PhaseAfter(p, events) in {Ready, Secured, Done}
    requires k < |events|
    requires p in {Blocked, BlockedRecovering, Secured, SecuredRecovering, Done} || (k > 0 && events[0].PolicyBlock?)
    ensures !events[k].Exec? && !events[k].PolicyBlock?
    decreases |events|
  {
    if p.Rejected? || Advance(p, events[0]).Rejected? {
      RejectedStays(events[1..]);
      RejectedStays(events);
    } else if k > 0 {
      BlockedSuffix(Advance(p, events[0]), events[1..], k - 1);
    }
  }

  lemma {:induction false} RejectedStays(events: seq<Event>)
    ensures PhaseAfter(Rejected, events) == Rejected
  {
    if events != [] {
      RejectedStays(events[1..]);
    }
  }

  /** Where a fallback leaves the event language, from a block or from the low-battery test. */
  lemma PhaseOfFallBack(rig: Rig, state: VehicleState, sends: Sends, onError: Trail, p: Phase)
    requires p in {Ready, Blocked, Secured}
    requires onError.events in {[], [SystemFault]}
    ensures var t := FallBack(rig, state, sends, onError);
      t == onError || PhaseAfter(p, t.events) == (if p == Blocked then Secured else Done)
    ensures PhaseAfter(p, onError.events) ==
      if onError.events == [] then p else if p == Blocked then Secured else Done
  {
    PhaseOne(p, SystemFault);
    match ExecuteAction(rig, state, FALLBACK_ACTION, sends)
    case None =>
    case Some((_, used)) =>
      PhaseConcat(p, used, [Fallback]);
      PhaseOne(p, Fallback);
      if used != [] {
        PhaseOne(p, FailoverUsed(ReturnToHome));
        PhaseOne(Advance(p, FailoverUsed(ReturnToHome)), Fallback);
      }
  }

  function PhaseOf(status: Status): Phase {
    match status case Running => Ready case Halted => Secured case Raised => Blocked
  }

  lemma PhaseOfStep(rig: Rig, state: VehicleState, entry: Entry)
    ensures var t := Step(rig, state, entry); PhaseAfter(Ready, t.events) == PhaseOf(t.status)
  {
    match Decide(rig, state, entry)
    case Block(reason) =>
      var onError := Trail(state, [], [], Raised);
      PhaseOne(Ready, PolicyBlock(reason));
      PhaseOfFallBack(rig, state, entry.onFallback, onError, Blocked);
      PhaseConcat(Ready, [PolicyBlock(reason)], FallBack(rig, state, entry.onFallback, onError).events);
    case Go(action) =>
      match ExecuteAction(rig, state, action, entry.onAction)
      case Some((_, used)) =>
        PhaseConcat(Ready, used, [Exec(action.kind)]);
        PhaseOne(Ready, FailoverUsed(action.kind));
        PhaseOne(Ready, Exec(action.kind));
        PhaseOne(Recovering(action.kind), Exec(action.kind));
      case None =>
        var onError := Logged(state, SystemFault, Halted);
        PhaseOne(Ready, PolicyBlock(TransportFailure));
        PhaseOfFallBack(rig, state, entry.onFallback, onError, Blocked);
        PhaseConcat(Ready, [PolicyBlock(TransportFailure)], FallBack(rig, state, entry.onFallback, onError).events);
  }

  lemma {:induction false} PhaseOfLoop(rig: Rig, state: VehicleState, entries: seq<Entry>)
    ensures var t := Loop(rig, state, entries); PhaseAfter(Ready, t.events) == PhaseOf(t.status)
    decreases |entries|
  {
    if entries != [] {
      PhaseOfStep(rig, state, entries[0]);
      var step := Step(rig, state, entries[0]);
      if step.status == Running {
        PhaseOfLoop(rig, step.state, entries[1..]);
        PhaseConcat(Ready, step.events, Loop(rig, step.state, entries[1..]).events);
      }
    }
  }

  /** Every returned run logs a complete word; an escaped one ends at the block it could not answer. */
  lemma EventsFollowTheLanguage(rig: Rig, state: VehicleState, entries: seq<Entry>, onTail: Sends)
    ensures var run := Run(rig, state, entries, onTail);
      if run.status == Raised then PhaseAfter(Ready, run.events) == Blocked else Complete(run.events)
  {
    PhaseOfLoop(rig, state, entries);
    var loop := Loop(rig, state, entries);
    if loop.status != Raised {
      PhaseOfFallBack(rig, loop.state, onTail, Logged(loop.state, SystemFault, Halted), PhaseOf(loop.status));
      PhaseConcat(Ready, loop.events, Tail(rig, loop.state, onTail).events);
    }
  }

  // ---------- Fail-stop ----------

  ghost predicate AtHome(state: VehicleState) {
    state.x == state.homeX && state.y == state.homeY
  }

  ghost predicate HasBlock(events: seq<Event>) {
    exists e :: e in events && e.PolicyBlock?
  }

  lemma FallBackGoesHome(rig: Rig, state: VehicleState, sends: Sends, onError: Trail)
    ensures var t := FallBack(rig, state, sends, onError);
      t == onError || (AtHome(t.state) && t.state.armed == state.armed && t.status == Halted)
  {
  }

  /** A step that ends the run has logged a block, and is at home unless it faulted or escaped. */
  lemma HaltedStepIsHome(rig: Rig, state: VehicleState, entry: Entry)
    ensures var t := Step(rig, state, entry);
      && (HasBlock(t.events) <==> t.status != Running)
      && (t.status == Halted && SystemFault !in t.events ==> AtHome(t.state))
  {
    match Decide(rig, state, entry)
    case Block(reason) =>
      FallBackGoesHome(rig, state, entry.onFallback, Trail(state, [], [], Raised));
      assert Step(rig, state, entry).events[0] == PolicyBlock(reason);
    case Go(action) =>
      match ExecuteAction(rig, state, action, entry.onAction)
      case Some(_) =>
      case None =>
        FallBackGoesHome(rig, state, entry.onFallback, Logged(state, SystemFault, Halted));
        assert Step(rig, state, entry).events[0] == PolicyBlock(TransportFailure);
  }

  lemma {:induction false} HaltedLoopIsHome(rig: Rig, state: VehicleState, entries: seq<Entry>)
    ensures var t := Loop(rig, state, entries);
      && (HasBlock(t.events) <==> t.status != Running)
      && (t.status == Halted && SystemFault !in t.events ==> AtHome(t.state))
    decreases |entries|
  {
    if entries != [] {
      HaltedStepIsHome(rig, state, entries[0]);
      var step := Step(rig, state, entries[0]);
      if step.status == Running {
        HaltedLoopIsHome(rig, step.state, entries[1..]);
      }
    }
  }

  /**
   * With no system fault, a run that was blocked, or that ends armed on a battery below ten percent, ends
   * exactly at home.
   */
  lemma BlockedRunsEndAtHome(rig: Rig, state: VehicleState, entries: seq<Entry>, onTail: Sends)
    requires Run(rig, state, entries, onTail).status != Raised
    requires SystemFault !in Run(rig, state, entries, onTail).events
    ensures var run := Run(rig, state, entries, onTail);
      HasBlock(run.events) || (run.state.battery < 10.0 && run.state.armed) ==> AtHome(run.state)
  {
    HaltedLoopIsHome(rig, state, entries);
    var loop := Loop(rig, state, entries);
    FallBackGoesHome(rig, loop.state, onTail, Logged(loop.state, SystemFault, Halted));
    var run := Run(rig, state, entries, onTail);
    if HasBlock(run.events) && !LowBattery(loop.state) {
      assert run.events == loop.events;
    }
    assert forall e :: e in loop.events ==> e in run.events;
    if HasBlock(run.events) && LowBattery(loop.state) {
      assert Logged(loop.state, SystemFault, Halted).events[0] == SystemFault;
    }
  }

  // ---------- Exactly when a run is blocked, and exactly when it escapes ----------

  /** The entry may be executed in this state: sensed, fresh, within the adapter's reach and the policy. */
  ghost predicate Admissible(rig: Rig, state: VehicleState, entry: Entry) {
    && entry.observation.Observed?
    && var frame := entry.observation.frame;
       var action := RefineAction(rig.planner, entry.action, frame, rig.mapping);
    && EstimatePose(rig.localization, state, frame, entry.now).isFresh
    && (action.kind == MoveTo && action.speed.Some? ==> action.speed.value <= rig.primary.profile.maxSpeed)
    && (action.kind == ReturnToHome ==> rig.primary.profile.supportsReturnToHome)
    && Permitted(rig.policy, StateForChecks(rig, state, frame, entry.now), action)
  }

  /** Some adapter delivers. */
  predicate Deliverable(rig: Rig, sends: Sends) {
    rig.primary.Sim? || sends.primary || (rig.failover.Some? && (rig.failover.value.Sim? || sends.failover))
  }

  lemma DeliverableExecutes(rig: Rig, state: VehicleState, action: Action, sends: Sends)
    ensures ExecuteAction(rig, state, action, sends).Some? <==> Deliverable(rig, sends)
    ensures Deliverable(rig, sends) ==> ExecuteAction(rig, state, action, sends).value.0 == Project(state, action)
  {
  }

  lemma GoesIffAdmissible(rig: Rig, state: VehicleState, entry: Entry)
    ensures Decide(rig, state, entry).Go? <==> Admissible(rig, state, entry)
  {
    if entry.observation.Observed? {
      PassesIffPermitted(rig.policy, StateForChecks(rig, state, entry.observation.frame, entry.now),
                         RefineAction(rig.planner, entry.action, entry.observation.frame, rig.mapping));
    }
  }

  lemma StepOutcomeIff(rig: Rig, state: VehicleState, entry: Entry)
    ensures var step := Step(rig, state, entry);
      && (step.status == Running <==> Admissible(rig, state, entry) && Deliverable(rig, entry.onAction))
      && (step.status == Raised <==> !Admissible(rig, state, entry) && !Deliverable(rig, entry.onFallback))
      && (step.status == Running ==> step.state == Project(state,
            RefineAction(rig.planner, entry.action, entry.observation.frame, rig.mapping)))
  {
    GoesIffAdmissible(rig, state, entry);
    DeliverableExecutes(rig, state, FALLBACK_ACTION, entry.onFallback);
    match Decide(rig, state, entry)
    case Block(_) =>
    case Go(action) => DeliverableExecutes(rig, state, action, entry.onAction);
  }

  /** The state after the entry's refined action took effect. */
  function AfterEntry(rig: Rig, state: VehicleState, entry: Entry): VehicleState {
    if entry.observation.Observed?
    then Project(state, RefineAction(rig.planner, entry.action, entry.observation.frame, rig.mapping))
    else state
  }

  /** Every entry is admissible and delivered in the state that the entries before it lead to. */
  ghost predicate AllAdmissible(rig: Rig, state: VehicleState, entries: seq<Entry>)
    decreases |entries|
  {
    entries != [] ==>
      && Admissible(rig, state, entries[0]) && Deliverable(rig, entries[0].onAction)
      && AllAdmissible(rig, AfterEntry(rig, state, entries[0]), entries[1..])
  }

  /** After entries that run, one comes that is inadmissible, and its fallback is not delivered. */
  ghost predicate LeftWithoutFallback(rig: Rig, state: VehicleState, entries: seq<Entry>)
    decreases |entries|
  {
    && entries != []
    && if Admissible(rig, state, entries[0])
       then Deliverable(rig, entries[0].onAction) &&
         LeftWithoutFallback(rig, AfterEntry(rig, state, entries[0]), entries[1..])
       else !Deliverable(rig, entries[0].onFallback)
  }

  lemma {:induction false} LoopOutcomeIff(rig: Rig, state: VehicleState, entries: seq<Entry>)
    ensures Loop(rig, state, entries).status == Running <==> AllAdmissible(rig, state, entries)
    ensures Loop(rig, state, entries).status == Raised <==> LeftWithoutFallback(rig, state, entries)
    decreases |entries|
  {
    if entries != [] {
      StepOutcomeIff(rig, state, entries[0]);
      LoopOutcomeIff(rig, AfterEntry(rig, state, entries[0]), entries[1..]);
    }
  }

  /**
   * A run is blocked exactly if some entry is inadmissible or undelivered when its turn comes; and an
   * exception escapes it exactly if that entry is inadmissible and no adapter delivers its fallback.
   */
  lemma RunIsBlockedIff(rig: Rig, state: VehicleState, entries: seq<Entry>, onTail: Sends)
    ensures var run := Run(rig, state, entries, onTail);
      && (HasBlock(run.events) <==> !AllAdmissible(rig, state, entries))
      && (run.status == Raised <==> LeftWithoutFallback(rig, state, entries))
  {
    LoopOutcomeIff(rig, state, entries);
    HaltedLoopIsHome(rig, state, entries);
    var loop := Loop(rig, state, entries);
    if loop.status != Raised {
      TailNeverBlocks(rig, loop.state, onTail);
      var tail := Tail(rig, loop.state, onTail);
      assert forall e :: e in loop.events + tail.events <==> e in loop.events || e in tail.events;
    }
  }

  lemma TailNeverBlocks(rig: Rig, state: VehicleState, onTail: Sends)
    ensures !HasBlock(Tail(rig, state, onTail).events) && Tail(rig, state, onTail).status == Halted
  {
  }

  // ---------- Motion envelope ----------

  /** The legs lead from one state to the next without a gap. */
  ghost predicate Linked(from: VehicleState, legs: seq<Leg>, to: VehicleState)
    decreases |legs|
  {
    if legs == [] then from == to else legs[0].before == from && Linked(legs[0].after, legs[1..], to)
  }

  lemma {:induction false} LinkedConcat(from: VehicleState, a: seq<Leg>, mid: VehicleState, b: seq<Leg>,
                                        to: VehicleState)
    requires Linked(from, a, mid) && Linked(mid, b, to)
    ensures Linked(from, a + b, to)
    decreases |a|
  {
    if a == [] {
      assert a + b == b;
    } else {
      LinkedConcat(a[0].after, a[1..], mid, b, to);
      assert (a + b)[1..] == a[1..] + b;
    }
  }

  /** The charge left after something that costs this much. */
  function Charge(battery: real, cost: real): real {
    if battery < cost then 0.0 else battery - cost
  }

  /** The vehicle at home, after the motion that took it there. */
  function SentHome(state: VehicleState): VehicleState {
    state.(x := state.homeX, y := state.homeY, battery := Charge(state.battery, 0.2))
  }

  /**
   * What an executed action does, field by field: arming arms and disarming disarms; a complete move goes
   * where it was sent, a return goes home, and both cost 0.2; a hold costs 0.05; nothing else changes.
   */
  ghost predicate Effected(before: VehicleState, action: Action, after: VehicleState) {
    var moved := action.kind == MoveTo && action.x.Some? && action.y.Some?;
    && after == before.(x := after.x, y := after.y, battery := after.battery, armed := after.armed)
    && (after.armed <==> action.kind == Arm || (before.armed && action.kind != Disarm))
    && (if moved then after.x == action.x.value && after.y == action.y.value
        else if action.kind == ReturnToHome then AtHome(after)
        else after.x == before.x && after.y == before.y)
    && after.battery == if moved || action.kind == ReturnToHome then Charge(before.battery, 0.2)
                        else if action.kind == Hold then Charge(before.battery, 0.05)
                        else before.battery
  }

  lemma ProjectionIsEffect(state: VehicleState, action: Action)
    ensures Effected(state, action, Project(state, action))
    ensures Project(state, FALLBACK_ACTION) == SentHome(state)
  {
  }

  /**
   * What every change of state respects. An executed move is complete, obeys the speed limits of the
   * policy and of the primary adapter, has the battery for it, and ends where it was sent, inside the
   * geofence; under the clearance planner that target is clear of every obstacle in the step's frame,
   * and a hold replaces a requested move only if the target and all eight sidesteps are unusable.
   * Every execution follows a fresh enough, certain enough pose, and a move one that stands off from
   * every obstacle. An execution has the effect of its action and no other; a fallback goes home.
   */
  ghost predicate LegAllowed(rig: Rig, leg: Leg) {
    && leg.after.homeX == leg.before.homeX && leg.after.homeY == leg.before.homeY
    && match leg
    case FellBack(before, after) => after == SentHome(before)
    case Executed(entry, action, before, after) =>
      && entry.observation.Observed?
      && before.connected
      && Effected(before, action, after)
      && SensedSafely(rig, before, action, entry.observation.frame, entry.now)
      && (action.kind == MoveTo ==>
            && action.x.Some? && action.y.Some? && action.speed.Some?
            && Within(rig.policy.geofence, after.x, after.y)
            && action.speed.value <= rig.policy.maxSpeed && action.speed.value <= rig.primary.profile.maxSpeed
            && before.battery >= rig.policy.minBatteryForMotion)
      && (action.kind == ReturnToHome ==> rig.primary.profile.supportsReturnToHome)
      && (rig.planner.ClearancePlanner? ==> KeepsClear(rig, entry.action, action, entry.observation.frame))
  }

  ghost predicate SensedSafely(rig: Rig, before: VehicleState, action: Action, frame: Frame, now: real) {
    var pose := EstimatePose(rig.localization, before, frame, now);
    && pose.isFresh
    && pose.positionStd <= rig.policy.maxLocalizationStd
    && Max(0.0, now - frame.timestamp) <= rig.policy.maxStaleness
    && (action.kind == MoveTo ==>
          forall o | o in frame.obstacles ::
            EdgeDistance(rig.mapping.metric, pose.x, pose.y, o) >= rig.policy.minStandoff)
    && (action.kind == Disarm ==> Within(0.01, pose.x, pose.y))
  }

  ghost predicate KeepsClear(rig: Rig, requested: Action, action: Action, frame: Frame)
    requires rig.planner.ClearancePlanner?
  {
    var gap, step := Max(0.0, rig.planner.minClearance), Max(0.0, rig.planner.sidestep);
    && (action.kind == MoveTo && action.x.Some? && action.y.Some? ==>
          forall o | o in frame.obstacles :: Clear(action.x.value, action.y.value, o, gap))
    && (requested.kind == MoveTo && requested.x.Some? && requested.y.Some? ==>
          (action.kind == Hold <==> NowhereToGo(rig.mapping, requested.x.value, requested.y.value, frame, gap, step)))
  }

  ghost predicate Sound(rig: Rig, from: VehicleState, t: Trail) {
    && Linked(from, t.legs, t.state)
    && (forall leg | leg in t.legs :: LegAllowed(rig, leg))
  }

  lemma SoundChain(rig: Rig, from: VehicleState, a: Trail, b: Trail)
    requires Sound(rig, from, a) && Sound(rig, a.state, b)
    ensures Sound(rig, from, Chain(a, b))
  {
    LinkedConcat(from, a.legs, a.state, b.legs, b.state);
  }

  lemma SoundFallBack(rig: Rig, state: VehicleState, sends: Sends, onError: Trail)
    requires Sound(rig, state, onError)
    ensures Sound(rig, state, FallBack(rig, state, sends, onError))
  {
    ProjectionIsEffect(state, FALLBACK_ACTION);
    match ExecuteAction(rig, state, FALLBACK_ACTION, sends)
    case None =>
    case Some((next, _)) => assert [FellBack(state, next)][1..] == [];
  }

  lemma AllowedExecution(rig: Rig, state: VehicleState, entry: Entry)
    requires Euclidean(rig.mapping.metric) && Decide(rig, state, entry).Go?
    ensures var action := Decide(rig, state, entry).action;
      LegAllowed(rig, Executed(entry, action, state, Project(state, action)))
  {
    GoesOnlyIfAllowed(rig, state, entry);
    ProjectionIsEffect(state, Decide(rig, state, entry).action);
    var a, frame := entry.action, entry.observation.frame;
    var pose := EstimatePose(rig.localization, state, frame, entry.now);
    NearestDistanceIsMinimum(rig.mapping.metric, pose.x, pose.y, frame.obstacles, rig.policy.minStandoff);
    if rig.planner.ClearancePlanner? && a.kind == MoveTo && a.x.Some? && a.y.Some? {
      ClearancePlannerRefines(rig.planner, a, frame, rig.mapping);
    }
  }

  lemma SoundStep(rig: Rig, state: VehicleState, entry: Entry)
    requires Euclidean(rig.mapping.metric)
    ensures Sound(rig, state, Step(rig, state, entry))
  {
    match Decide(rig, state, entry)
    case Block(reason) =>
      var onError := Trail(state, [], [], Raised);
      SoundFallBack(rig, state, entry.onFallback, onError);
      SoundChain(rig, state, Logged(state, PolicyBlock(reason), Running),
                 FallBack(rig, state, entry.onFallback, onError));
    case Go(action) =>
      match ExecuteAction(rig, state, action, entry.onAction)
      case Some((next, _)) =>
        AllowedExecution(rig, state, entry);
        assert [Executed(entry, action, state, next)][1..] == [];
      case None =>
        var onError := Logged(state, SystemFault, Halted);
        SoundFallBack(rig, state, entry.onFallback, onError);
        SoundChain(rig, state, Logged(state, PolicyBlock(TransportFailure), Running),
                   FallBack(rig, state, entry.onFallback, onError));
  }

  lemma {:induction false} SoundLoop(rig: Rig, state: VehicleState, entries: seq<Entry>)
    requires Euclidean(rig.mapping.metric)
    ensures Sound(rig, state, Loop(rig, state, entries))
    decreases |entries|
  {
    if entries != [] {
      SoundStep(rig, state, entries[0]);
      var step := Step(rig, state, entries[0]);
      if step.status == Running {
        SoundLoop(rig, step.state, entries[1..]);
        SoundChain(rig, state, step, Loop(rig, step.state, entries[1..]));
      }
    }
  }

  lemma {:induction false} LinkedStaysInside(rig: Rig, from: VehicleState, legs: seq<Leg>, to: VehicleState)
    requires Linked(from, legs, to) && forall leg | leg in legs :: LegAllowed(rig, leg)
    requires Within(rig.policy.geofence, from.x, from.y) && Within(rig.policy.geofence, from.homeX, from.homeY)
    ensures Within(rig.policy.geofence, to.x, to.y)
    ensures forall leg | leg in legs :: Within(rig.policy.geofence, leg.after.x, leg.after.y)
    decreases |legs|
  {
    if legs != [] {
      assert LegAllowed(rig, legs[0]);
      LinkedStaysInside(rig, legs[0].after, legs[1..], to);
      assert forall leg :: leg in legs <==> leg == legs[0] || leg in legs[1..];
    }
  }

  /**
   * Every run moves only by allowed legs, one after the other from its initial to its final state; and
   * from a start and a home inside the geofence it never leaves the geofence, escaped runs included.
   */
  lemma RunsStayInTheEnvelope(rig: Rig, state: VehicleState, entries: seq<Entry>, onTail: Sends)
    requires Euclidean(rig.mapping.metric)
    ensures var run := Run(rig, state, entries, onTail);
      && Linked(state, run.legs, run.state)
      && (forall leg | leg in run.legs :: LegAllowed(rig, leg))
      && (Within(rig.policy.geofence, state.x, state.y) && Within(rig.policy.geofence, state.homeX, state.homeY) ==>
            && Within(rig.policy.geofence, run.state.x, run.state.y)
            && forall leg | leg in run.legs :: Within(rig.policy.geofence, leg.after.x, leg.after.y))
  {
    SoundLoop(rig, state, entries);
    var loop, run := Loop(rig, state, entries), Run(rig, state, entries, onTail);
    if loop.status != Raised {
      SoundFallBack(rig, loop.state, onTail, Logged(loop.state, SystemFault, Halted));
      SoundChain(rig, state, loop, Tail(rig, loop.state, onTail));
    }
    if Within(rig.policy.geofence, state.x, state.y) && Within(rig.policy.geofence, state.homeX, state.homeY) {
      LinkedStaysInside(rig, state, run.legs, run.state);
    }
  }

  // ---------- Verified clean runs ----------

  function Actions(entries: seq<Entry>): seq<Action> {
    seq(|entries|, i requires 0 <= i < |entries| => entries[i].action)
  }

  /** The i-th leg executes the i-th entry, with the action the planner made of it. */
  ghost predicate ExecutesInOrder(rig: Rig, entries: seq<Entry>, legs: seq<Leg>) {
    && |legs| == |entries|
    && forall i | 0 <= i < |entries| ::
         && legs[i].Executed? && legs[i].entry == entries[i] && entries[i].observation.Observed?
         && legs[i].action == RefineAction(rig.planner, entries[i].action, entries[i].observation.frame, rig.mapping)
  }

  function Executions(events: seq<Event>): seq<ActionType> {
    if events == [] then []
    else if events[0].Exec? then [events[0].kind] + Executions(events[1..])
    else Executions(events[1..])
  }

  lemma {:induction false} ExecutionsConcat(a: seq<Event>, b: seq<Event>)
    ensures Executions(a + b) == Executions(a) + Executions(b)
  {
    if a == [] {
      assert a + b == b;
    } else {
      ExecutionsConcat(a[1..], b);
      assert (a + b)[1..] == a[1..] + b;
    }
  }

  function Kinds(legs: seq<Leg>): seq<ActionType>
    requires forall leg | leg in legs :: leg.Executed?
  {
    seq(|legs|, i requires 0 <= i < |legs| => legs[i].action.kind)
  }

  lemma RunningStep(rig: Rig, state: VehicleState, entry: Entry)
    requires Step(rig, state, entry).status == Running
    ensures var t := Step(rig, state, entry);
      && ExecutesInOrder(rig, [entry], t.legs)
      && Executions(t.events) == Kinds(t.legs)
      && Fallback !in t.events && SystemFault !in t.events
  {
    var action := Decide(rig, state, entry).action;
    GoesOnlyIfAllowed(rig, state, entry);
    var used := ExecuteAction(rig, state, action, entry.onAction).value.1;
    ExecutionsConcat(used, [Exec(action.kind)]);
    assert [Exec(action.kind)][1..] == [];
  }

  lemma InOrderConcat(rig: Rig, entries: seq<Entry>, a: seq<Leg>, b: seq<Leg>)
    requires entries != [] && ExecutesInOrder(rig, entries[..1], a) && ExecutesInOrder(rig, entries[1..], b)
    ensures ExecutesInOrder(rig, entries, a + b) && Kinds(a + b) == Kinds(a) + Kinds(b)
  {
    forall i | 0 < i < |entries|
      ensures entries[i] == entries[1..][i - 1] && (a + b)[i] == b[i - 1]
    {
    }
    assert entries[0] == entries[..1][0];
  }

  lemma {:induction false} RunningLoop(rig: Rig, state: VehicleState, entries: seq<Entry>)
    requires Loop(rig, state, entries).status == Running
    ensures var t := Loop(rig, state, entries);
      && ExecutesInOrder(rig, entries, t.legs)
      && Executions(t.events) == Kinds(t.legs)
      && Fallback !in t.events && SystemFault !in t.events
    decreases |entries|
  {
    if entries != [] {
      RunningStep(rig, state, entries[0]);
      var step := Step(rig, state, entries[0]);
      var rest := Loop(rig, step.state, entries[1..]);
      RunningLoop(rig, step.state, entries[1..]);
      ExecutionsConcat(step.events, rest.events);
      assert entries[..1] == [entries[0]];
      InOrderConcat(rig, entries, step.legs, rest.legs);
    }
  }

  /** A run is unblocked exactly if its loop handled every entry; its executions are then those of the plan. */
  lemma UnblockedRunsExecuteThePlan(rig: Rig, state: VehicleState, entries: seq<Entry>, onTail: Sends)
    requires !HasBlock(Run(rig, state, entries, onTail).events)
    ensures var run := Run(rig, state, entries, onTail);
      && run.status != Raised
      && |Executions(run.events)| == |entries| <= |run.legs|
      && ExecutesInOrder(rig, entries, run.legs[..|entries|])
      && Executions(run.events) == Kinds(run.legs[..|entries|])
  {
    UnblockedLoop(rig, state, entries, onTail);
    var loop := Loop(rig, state, entries);
    RunningLoop(rig, state, entries);
    var tail := Tail(rig, loop.state, onTail);
    ExecutionsConcat(loop.events, tail.events);
    TailExecutesNothing(rig, loop.state, onTail);
    assert Run(rig, state, entries, onTail).legs[..|entries|] == loop.legs;
  }

  lemma UnblockedLoop(rig: Rig, state: VehicleState, entries: seq<Entry>, onTail: Sends)
    requires !HasBlock(Run(rig, state, entries, onTail).events)
    ensures Loop(rig, state, entries).status == Running
  {
    HaltedLoopIsHome(rig, state, entries);
    assert forall e :: e in Loop(rig, state, entries).events ==> e in Run(rig, state, entries, onTail).events;
  }

  lemma TailExecutesNothing(rig: Rig, state: VehicleState, onTail: Sends)
    ensures Executions(Tail(rig, state, onTail).events) == []
  {
    if LowBattery(state) {
      match ExecuteAction(rig, state, FALLBACK_ACTION, onTail)
      case None => assert [SystemFault][1..] == [];
      case Some((_, used)) =>
        ExecutionsConcat(used, [Fallback]);
        assert [Fallback][1..] == [];
    }
  }

  lemma {:induction false} LoopEndsWithLastStep(rig: Rig, state: VehicleState, entries: seq<Entry>)
    returns (before: VehicleState)
    requires entries != [] && Loop(rig, state, entries).status == Running
    ensures var last := Step(rig, before, entries[|entries| - 1]);
      last.status == Running && last.state == Loop(rig, state, entries).state
    decreases |entries|
  {
    if |entries| == 1 {
      before := state;
    } else {
      before := LoopEndsWithLastStep(rig, Step(rig, state, entries[0]).state, entries[1..]);
    }
  }

  lemma DisarmedAtOrigin(rig: Rig, state: VehicleState, entry: Entry)
    requires rig.localization.PassThrough? && entry.action.kind == Disarm
    requires Step(rig, state, entry).status == Running
    ensures var s := Step(rig, state, entry).state; !s.armed && Within(0.01, s.x, s.y)
  {
    GoesOnlyIfAllowed(rig, state, entry);
  }

  /**
   * Under pass-through localization, an accepted plan whose run is returned without block or fault ends
   * disarmed at the origin, having executed its entries in order and nothing else.
   */
  lemma VerifiedCleanRunsFinishSafe(rig: Rig, state: VehicleState, entries: seq<Entry>, onTail: Sends)
    requires rig.localization.PassThrough? && PlanVerifier.Accepted(Actions(entries))
    requires !HasBlock(Run(rig, state, entries, onTail).events)
    ensures var run := Run(rig, state, entries, onTail);
      && run.status != Raised
      && !run.state.armed && Within(0.01, run.state.x, run.state.y)
      && ExecutesInOrder(rig, entries, run.legs)
      && Executions(run.events) == Kinds(run.legs)
      && Fallback !in run.events && SystemFault !in run.events
  {
    UnblockedLoop(rig, state, entries, onTail);
    RunningLoop(rig, state, entries);
    CleanLoopEndsDisarmed(rig, state, entries);
    var loop := Loop(rig, state, entries);
    NoTail(loop, rig, onTail);
  }

  lemma NoTail(loop: Trail, rig: Rig, onTail: Sends)
    requires !LowBattery(loop.state)
    ensures Chain(loop, Tail(rig, loop.state, onTail)) == loop.(status := Halted)
  {
  }

  lemma CleanLoopEndsDisarmed(rig: Rig, state: VehicleState, entries: seq<Entry>)
    requires rig.localization.PassThrough? && PlanVerifier.Accepted(Actions(entries))
    requires Loop(rig, state, entries).status == Running
    ensures var s := Loop(rig, state, entries).state; !s.armed && Within(0.01, s.x, s.y)
  {
    var before := LoopEndsWithLastStep(rig, state, entries);
    assert Actions(entries)[|entries| - 1] == entries[|entries| - 1].action;
    DisarmedAtOrigin(rig, before, entries[|entries| - 1]);
  }
}
