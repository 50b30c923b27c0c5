/** The benchmark loop: plan, verify, run, and count. */
module Benchmark {
  import opened Options
  import opened Models
  import opened EdgeSupervisor
  import opened MissionProofs
  import opened PlanVerifier

  /** What one repetition of the benchmark meets: a planner error, or a plan and its environment. */
  datatype Trial = PlannerError | Planned(entries: seq<Entry>, onTail: Sends)

  datatype Settings = Settings(useTransportPrimary: bool, strictPass: bool, requireTransportSuccess: bool)

  datatype Record =
    | PlannerFailed
    | PlanRejected(errors: seq<PlanError>)
    | Ran(succeeded: bool, strict: bool)

  datatype Report = Report(records: seq<Record>, plannerErrors: nat, verified: nat, executed: nat, strict: nat)

  datatype Outcome = Completed(report: Report) | BadOptions | RunRaised

  function CountIf<T>(items: seq<T>, p: T -> bool): nat {
    if items == [] then 0 else (if p(items[0]) then 1 else 0) + CountIf(items[1..], p)
  }

  lemma {:induction false} CountIfConcat<T>(a: seq<T>, b: seq<T>, p: T -> bool)
    ensures CountIf(a + b, p) == CountIf(a, p) + CountIf(b, p)
  {
    if a == [] {
      assert a + b == b;
    } else {
      CountIfConcat(a[1..], b, p);
      assert (a + b)[1..] == a[1..] + b;
    }
  }

  lemma {:induction false} CountIfZero<T>(items: seq<T>, p: T -> bool)
    ensures CountIf(items, p) == 0 <==> forall item | item in items :: !p(item)
  {
    if items != [] {
      CountIfZero(items[1..], p);
      assert forall item :: item in items <==> item == items[0] || item in items[1..];
    }
  }

  lemma {:induction false} CountIfMonotone<T>(items: seq<T>, p: T -> bool, q: T -> bool)
    requires forall item | item in items :: p(item) ==> q(item)
    ensures CountIf(items, p) <= CountIf(items, q) <= |items|
  {
    if items != [] {
      CountIfMonotone(items[1..], p, q);
    }
  }

  lemma {:induction false} CountIfExecutions(events: seq<Event>)
    ensures CountIf(events, (e: Event) => e.Exec?) == |Executions(events)|
  {
    if events != [] {
      CountIfExecutions(events[1..]);
    }
  }

  /** Where it matters, the transport primary delivered everything by itself. */
  ghost predicate PrimaryHeld(settings: Settings, events: seq<Event>) {
    settings.useTransportPrimary && (settings.requireTransportSuccess || settings.strictPass) ==>
      forall e | e in events :: !e.FailoverUsed?
  }

  /** What a record must say of its trial. No clause counts the executed actions. */
  ghost predicate Describes(rig: Rig, initial: VehicleState, settings: Settings, trial: Trial, record: Record) {
    match trial
    case PlannerError => record.PlannerFailed?
    case Planned(entries, onTail) =>
      if !Accepted(Actions(entries)) then
        record.PlanRejected? && forall e :: e in record.errors <==> HasFault(Actions(entries), e)
      else
        var run := Run(rig, initial, entries, onTail);
        && record.Ran? && run.status != Raised
        && (record.succeeded <==> SystemFault !in run.events && run.state.connected)
        && (record.strict <==> record.succeeded && !HasBlock(run.events) && PrimaryHeld(settings, run.events))
  }

  ghost predicate Raises(rig: Rig, initial: VehicleState, trial: Trial) {
    trial.Planned? && Accepted(Actions(trial.entries)) &&
    Run(rig, initial, trial.entries, trial.onTail).status == Raised
  }

  /** The verdict on one returned run, by the counts that the benchmark takes from its event list. */
  method Judge(settings: Settings, planned: nat, connected: bool, events: seq<Event>)
    returns (succeeded: bool, strict: bool)
    ensures succeeded <==> SystemFault !in events && connected
    ensures strict <==> (
      succeeded && !HasBlock(events) && |Executions(events)| == planned && PrimaryHeld(settings, events))
  {
    var blocks := CountIf(events, (e: Event) => e.PolicyBlock?);
    var faults := CountIf(events, (e: Event) => e.SystemFault?);
    var failovers := CountIf(events, (e: Event) => e.FailoverUsed?);
    var execs := CountIf(events, (e: Event) => e.Exec?);
    CountIfZero(events, (e: Event) => e.PolicyBlock?);
    CountIfZero(events, (e: Event) => e.SystemFault?);
    CountIfZero(events, (e: Event) => e.FailoverUsed?);
    CountIfExecutions(events);
    succeeded := faults == 0 && connected;
    var transportPrimaryOk := !settings.useTransportPrimary || failovers == 0;
    strict := faults == 0 && blocks == 0 && execs == planned && connected &&
      (if settings.requireTransportSuccess || settings.strictPass then transportPrimaryOk else true);
  }

  /** One repetition: its record, or `None` when the run raises an exception. */
  method RunTrial(rig: Rig, initial: VehicleState, settings: Settings, trial: Trial) returns (record: Option<Record>)
    ensures match record
      case None => Raises(rig, initial, trial)
      case Some(r) => !Raises(rig, initial, trial) && Describes(rig, initial, settings, trial, r)
  {
    if trial.PlannerError? {
      return Some(PlannerFailed);
    }
    var ok, errors := Verify(Actions(trial.entries));
    if !ok {
      return Some(PlanRejected(errors));
    }
    var raised, final, events := RunPlan(rig, initial, trial.entries, trial.onTail);
    if raised {
      return None;
    }
    var succeeded, strict := Judge(settings, |trial.entries|, final.connected, events);
    if !HasBlock(events) {
      UnblockedRunsExecuteThePlan(rig, initial, trial.entries, trial.onTail);
    }
    record := Some(Ran(succeeded, strict));
  }

  /** The report whose counters are read off its records. */
  function Counted(records: seq<Record>): Report {
    Report(records,
           CountIf(records, (x: Record) => x.PlannerFailed?),
           CountIf(records, (x: Record) => x.Ran?),
           CountIf(records, (x: Record) => x.Ran? && x.succeeded),
           CountIf(records, (x: Record) => x.Ran? && x.strict))
  }

  lemma CountedMore(records: seq<Record>, record: Record)
    ensures var before := Counted(records);
      Counted(records + [record]) == Report(
        records + [record],
        before.plannerErrors + if record.PlannerFailed? then 1 else 0,
        before.verified + if record.Ran? then 1 else 0,
        before.executed + if record.Ran? && record.succeeded then 1 else 0,
        before.strict + if record.Ran? && record.strict then 1 else 0)
  {
    CountIfConcat(records, [record], (x: Record) => x.PlannerFailed?);
    CountIfConcat(records, [record], (x: Record) => x.Ran?);
    CountIfConcat(records, [record], (x: Record) => x.Ran? && x.succeeded);
    CountIfConcat(records, [record], (x: Record) => x.Ran? && x.strict);
  }

  /** Strict successes are among the successes, these among the verified runs, and these among the trials. */
  lemma CountersAreOrdered(rig: Rig, initial: VehicleState, settings: Settings, trials: seq<Trial>,
                           records: seq<Record>)
    requires |records| == |trials|
    requires forall i | 0 <= i < |trials| :: Describes(rig, initial, settings, trials[i], records[i])
    ensures var r := Counted(records); r.strict <= r.executed <= r.verified <= |trials|
  {
    forall record | record in records
      ensures record.Ran? && record.strict ==> record.succeeded
    {
      var i :| 0 <= i < |records| && records[i] == record;
      assert Describes(rig, initial, settings, trials[i], records[i]);
    }
    CountIfMonotone(records, (x: Record) => x.Ran? && x.strict, (x: Record) => x.Ran? && x.succeeded);
    CountIfMonotone(records, (x: Record) => x.Ran? && x.succeeded, (x: Record) => x.Ran?);
    CountIfMonotone(records, (x: Record) => x.Ran?, (x: Record) => x.Ran?);
  }

  lemma DescribedRunsReturn(rig: Rig, initial: VehicleState, settings: Settings, trial: Trial, record: Record)
    requires Describes(rig, initial, settings, trial, record)
    ensures !Raises(rig, initial, trial)
  {
  }

  /**
   * The benchmark either stops at an exception, or describes every trial and counts its records. Its
   * exec-count clause is implied by the others: a strict success is described without it.
   */
  method RunBenchmark(rig: Rig, initial: VehicleState, settings: Settings, trials: seq<Trial>)
    returns (outcome: Outcome)
    ensures outcome.BadOptions? <==> settings.requireTransportSuccess && !settings.useTransportPrimary
    ensures outcome.RunRaised? <==> !outcome.BadOptions? && exists t :: t in trials && Raises(rig, initial, t)
    ensures outcome.Completed? ==>
      var r := outcome.report;
      && |r.records| == |trials|
      && (forall i | 0 <= i < |trials| :: Describes(rig, initial, settings, trials[i], r.records[i]))
      && r == Counted(r.records)
      && r.strict <= r.executed <= r.verified <= |trials|
  {
    if settings.requireTransportSuccess && !settings.useTransportPrimary {
      return BadOptions;
    }
    var records: seq<Record> := [];
    var plannerErrors, verified, executed, strict := 0, 0, 0, 0;
    for i := 0 to |trials|
      invariant |records| == i
      invariant forall j | 0 <= j < i :: Describes(rig, initial, settings, trials[j], records[j])
      invariant Report(records, plannerErrors, verified, executed, strict) == Counted(records)
    {
      var result := RunTrial(rig, initial, settings, trials[i]);
      if result.None? {
        return RunRaised;
      }
      var record := result.value;
      CountedMore(records, record);
      plannerErrors := plannerErrors + if record.PlannerFailed? then 1 else 0;
      verified := verified + if record.Ran? then 1 else 0;
      executed := executed + if record.Ran? && record.succeeded then 1 else 0;
      strict := strict + if record.Ran? && record.strict then 1 else 0;
      records := records + [record];
    }
    CountersAreOrdered(rig, initial, settings, trials, records);
    forall i | 0 <= i < |trials|
      ensures !Raises(rig, initial, trials[i])
    {
      DescribedRunsReturn(rig, initial, settings, trials[i], records[i]);
    }
    outcome := Completed(Report(records, plannerErrors, verified, executed, strict));
  }

  /** A strict success is a clean run of a verified plan, so it ends disarmed at the origin. */
  lemma StrictSuccessIsSafe(rig: Rig, initial: VehicleState, settings: Settings, trial: Trial, record: Record)
    requires rig.localization.PassThrough?
    requires Describes(rig, initial, settings, trial, record) && record.Ran? && record.strict
    ensures var run := Run(rig, initial, trial.entries, trial.onTail);
      && !run.state.armed && Within(0.01, run.state.x, run.state.y)
      && |Executions(run.events)| == |trial.entries|
      && Fallback !in run.events
  {
    VerifiedCleanRunsFinishSafe(rig, initial, trial.entries, trial.onTail);
  }
}
