/** Properties of the whole life of a transport, any sends and pinset operations in any order. */
module TransportRuns {
  import opened Options
  import opened Ledger
  import opened CertPins
  import opened RollbackGuard
  import opened Transport
  import opened TransportProofs

  /** A command to send, or an operation on the pinset that the transport holds. */
  datatype Job =
    | Command(now: real, envelope: Envelope, script: seq<Attempt>)
    | PinChange(now: real, vendor: string, op: Op)

  ghost predicate AllFit(cfg: Config, jobs: seq<Job>) {
    forall i | 0 <= i < |jobs| && jobs[i].Command? :: Fits(cfg, jobs[i].script)
  }

  function Perform(cfg: Config, b: Base, job: Job): Sent {
    match job
    case Command(now, e, script) => Send(cfg, b, e, now, script)
    case PinChange(now, vendor, op) => Sent(b.(store := Apply(b.store, vendor, now, op)), true, [], 0.0)
  }

  function RunJobs(cfg: Config, b: Base, jobs: seq<Job>): (Base, seq<Tried>)
    decreases |jobs|
  {
    if jobs == [] then (b, [])
    else
      var sent := Perform(cfg, b, jobs[0]);
      var (last, tries) := RunJobs(cfg, sent.base, jobs[1..]);
      (last, sent.tries + tries)
  }

  // ---------- Idempotency ----------

  /** The times of a script run forwards from `from`. */
  ghost predicate Forwards(from: real, script: seq<Attempt>) {
    && (forall i | 0 <= i < |script| :: from <= script[i].now)
    && (forall i, j | 0 <= i < j < |script| :: script[i].now <= script[j].now)
  }

  function EndOf(job: Job): real {
    if job.PinChange? || job.script == [] then job.now else job.script[|job.script| - 1].now
  }

  /** Each job starts after the one before has made its last possible attempt. */
  ghost predicate OneAfterTheOther(from: real, jobs: seq<Job>)
    decreases |jobs|
  {
    jobs != [] ==>
      && from <= jobs[0].now && (jobs[0].Command? ==> Forwards(jobs[0].now, jobs[0].script))
      && OneAfterTheOther(EndOf(jobs[0]), jobs[1..])
  }

  /** Two completions of one command key are more than the time to live apart. */
  ghost predicate Apart(ttl: real, log: seq<CommandEvent>) {
    forall i, j |
      0 <= i < j < |log| && log[i].status == AckOk && log[j].status == AckOk && log[i].key == log[j].key ::
      log[j].ts > log[i].ts + ttl
  }

  /** A completion is still guarded by its key, or its time has passed. */
  ghost predicate Guarded(ttl: real, keys: Keys, log: seq<CommandEvent>, now: real) {
    forall i | 0 <= i < |log| && log[i].status == AckOk ::
      log[i].ts + ttl < now || (log[i].key in keys && keys[log[i].key] >= log[i].ts + ttl)
  }

  /** The outcomes logged after the first `skip` ones are apart, and guarded by the keys. */
  ghost predicate Disciplined(cfg: Config, skip: nat, b: Base, now: real) {
    skip <= |Outcomes(b.events)| &&
    var log := Outcomes(b.events)[skip..];
    && Apart(cfg.keyTtl, log)
    && Guarded(cfg.keyTtl, b.keys, log, now)
    && forall i | 0 <= i < |log| :: log[i].ts <= now
  }

  lemma CompletionIsDisciplined(ttl: real, keys: Keys, log: seq<CommandEvent>, event: CommandEvent,
                                start: real, end: real)
    requires Apart(ttl, log) && Guarded(ttl, keys, log, start) && start <= event.ts <= end
    requires forall i | 0 <= i < |log| :: log[i].ts <= start
    requires event.status == AckOk ==> event.key !in Purged(keys, start)
    ensures Apart(ttl, log + [event])
    ensures Guarded(ttl, if event.status == AckOk then Purged(keys, start)[event.key := event.ts + ttl]
                         else Purged(keys, start), log + [event], end)
  {
  }

  /** What one send adds to the outcome log, and how the keys follow it. */
  ghost predicate Adds(cfg: Config, b: Base, next: Base, start: real, end: real, added: seq<CommandEvent>) {
    var purged := Purged(b.keys, start);
    && Outcomes(next.events) == Outcomes(b.events) + added
    && if added == [] then next.keys == purged
       else
         var event := added[0];
         && added == [event] && start <= event.ts <= end
         && (event.status == AckOk ==> event.key !in purged)
         && next.keys == if event.status == AckOk then purged[event.key := event.ts + cfg.keyTtl] else purged
  }

  lemma SendAdds(cfg: Config, b: Base, job: Job) returns (added: seq<CommandEvent>)
    requires job.Command? && cfg.deduplicate && Fits(cfg, job.script) && Forwards(job.now, job.script)
    ensures Adds(cfg, b, Perform(cfg, b, job).base, job.now, EndOf(job), added)
  {
    RetryContract(cfg, b, job.envelope, job.now, job.script);
    if !Duplicate(b.keys, job.now, job.envelope.key) && cfg.maxAttempts < 1 {
      added := [];
    } else {
      var event := OutcomeOf(cfg, b, job.envelope, job.now, job.script, Perform(cfg, b, job));
      added := [event];
    }
  }

  lemma OutcomeOf(cfg: Config, b: Base, e: Envelope, now: real, script: seq<Attempt>, sent: Sent)
    returns (event: CommandEvent)
    requires cfg.deduplicate && Forwards(now, script)
    requires if Duplicate(b.keys, now, e.key) then Skipped(cfg, b, e, now, sent)
             else Retried(cfg, PurgedBase(cfg, b, now), e, script, sent)
    ensures Adds(cfg, b, sent.base, now, if script == [] then now else script[|script| - 1].now, [event])
  {
    if Duplicate(b.keys, now, e.key) {
      event := CommandEvent(now, e.vehicle, e.commandId, e.key, DuplicateSkip);
      OutcomesAppend(b.events, event);
    } else {
      event := CommandEvent(script[|sent.tries| - 1].now, e.vehicle, e.commandId, e.key,
                            if sent.delivered then AckOk else SendFailed);
    }
  }

  lemma AdditionIsDisciplined(cfg: Config, skip: nat, b: Base, next: Base, from: real, start: real, end: real,
                              added: seq<CommandEvent>)
    requires Disciplined(cfg, skip, b, from) && from <= start <= end && Adds(cfg, b, next, start, end, added)
    ensures Disciplined(cfg, skip, next, end) && Outcomes(b.events) <= Outcomes(next.events)
  {
    var before := Outcomes(b.events);
    assert (before + added)[skip..] == before[skip..] + added;
    if added != [] {
      CompletionIsDisciplined(cfg.keyTtl, b.keys, before[skip..], added[0], start, end);
    }
  }

  lemma JobIsDisciplined(cfg: Config, skip: nat, b: Base, job: Job, from: real)
    requires cfg.deduplicate && Disciplined(cfg, skip, b, from) && from <= job.now
    requires job.Command? ==> Fits(cfg, job.script) && Forwards(job.now, job.script)
    ensures Disciplined(cfg, skip, Perform(cfg, b, job).base, EndOf(job))
    ensures Outcomes(b.events) <= Outcomes(Perform(cfg, b, job).base.events)
  {
    if job.Command? {
      var added := SendAdds(cfg, b, job);
      AdditionIsDisciplined(cfg, skip, b, Perform(cfg, b, job).base, from, job.now, EndOf(job), added);
    }
  }

  lemma {:induction false} JobsAreDisciplined(cfg: Config, skip: nat, b: Base, jobs: seq<Job>, from: real)
    returns (end: real)
    requires cfg.deduplicate && AllFit(cfg, jobs) && Disciplined(cfg, skip, b, from) && OneAfterTheOther(from, jobs)
    ensures Disciplined(cfg, skip, RunJobs(cfg, b, jobs).0, end)
    ensures Outcomes(b.events) <= Outcomes(RunJobs(cfg, b, jobs).0.events)
    decreases |jobs|
  {
    if jobs == [] {
      end := from;
    } else {
      JobIsDisciplined(cfg, skip, b, jobs[0], from);
      end := JobsAreDisciplined(cfg, skip, Perform(cfg, b, jobs[0]).base, jobs[1..], EndOf(jobs[0]));
    }
  }

  /**
   * Whatever ledger and pinset a transport starts with, its sequential sends never complete one command
   * twice within the time to live of its key. If the ledger it found was kept that way, so is the whole log.
   */
  lemma CompletionsAreApart(cfg: Config, b: Base, jobs: seq<Job>, from: real)
    requires cfg.deduplicate && AllFit(cfg, jobs) && OneAfterTheOther(from, jobs)
    ensures var before, after := Outcomes(b.events), Outcomes(RunJobs(cfg, b, jobs).0.events);
      && before <= after && Apart(cfg.keyTtl, after[|before|..])
      && (Disciplined(cfg, 0, b, from) ==> Apart(cfg.keyTtl, after))
  {
    var _ := JobsAreDisciplined(cfg, |Outcomes(b.events)|, b, jobs, from);
    if Disciplined(cfg, 0, b, from) {
      var _ := JobsAreDisciplined(cfg, 0, b, jobs, from);
      var after := Outcomes(RunJobs(cfg, b, jobs).0.events);
      assert after[0..] == after;
    }
  }

  // ---------- What the attempts hand on ----------

  /** The record of an attempt is true. */
  ghost predicate Genuine(cfg: Config, t: Tried) {
    TryOnce(cfg, t.before, t.envelope, t.attempt) == (t.after, t.ok)
  }

  ghost predicate AllGenuine(cfg: Config, tries: seq<Tried>) {
    forall t {:trigger Genuine(cfg, t)} | t in tries :: Genuine(cfg, t)
  }

  lemma {:induction false} RetriesAreGenuine(cfg: Config, b: Base, e: Envelope, k: nat, script: seq<Attempt>)
    ensures AllGenuine(cfg, TryAll(cfg, b, e, k, script).tries)
    decreases |script|
  {
    if script != [] {
      RetriesAreGenuine(cfg, TryOnce(cfg, b, e, script[0]).0, e, k + 1, script[1..]);
    }
  }

  lemma {:induction false} JobsAreGenuine(cfg: Config, b: Base, jobs: seq<Job>)
    ensures AllGenuine(cfg, RunJobs(cfg, b, jobs).1)
    decreases |jobs|
  {
    if jobs != [] {
      if jobs[0].Command? {
        RetriesAreGenuine(cfg, PurgedBase(cfg, b, jobs[0].now), jobs[0].envelope, 0, jobs[0].script);
      }
      JobsAreGenuine(cfg, Perform(cfg, b, jobs[0]).base, jobs[1..]);
    }
  }

  /** The successful rollbacks found in a log. */
  function RollbackLog(events: seq<CommandEvent>): seq<CommandEvent> {
    if events == [] then []
    else
      var n := |events| - 1;
      RollbackLog(events[..n]) + if events[n].status == AutoRollback then [events[n]] else []
  }

  lemma RollbackLogAppend(events: seq<CommandEvent>, event: CommandEvent)
    ensures RollbackLog(events + [event]) == RollbackLog(events) + if event.status == AutoRollback then [event] else []
  {
    assert (events + [event])[..|events|] == events;
  }

  /** What nothing but an attempt changes: the nonces, the rollback guard and the logged rollbacks. */
  datatype Carried = Carried(nonces: map<string, int>, guard: Guard, rollbacks: seq<CommandEvent>)

  function CarriedBy(b: Base): Carried {
    Carried(b.nonces, b.guard, RollbackLog(b.events))
  }

  /** What the k-th attempt starts from, or what is there in the end. */
  function CarriedAt(tries: seq<Tried>, end: Carried, k: nat): Carried {
    if k < |tries| then CarriedBy(tries[k].before) else end
  }

  /** Each attempt starts from what the one before left. */
  ghost predicate Chain(from: Carried, tries: seq<Tried>, end: Carried) {
    && CarriedAt(tries, end, 0) == from
    && forall k {:trigger tries[k].after} | 0 <= k < |tries| ::
         CarriedBy(tries[k].after) == CarriedAt(tries, end, k + 1)
  }

  lemma ChainConcat(from: Carried, a: seq<Tried>, mid: Carried, b: seq<Tried>, end: Carried)
    requires Chain(from, a, mid) && Chain(mid, b, end)
    ensures Chain(from, a + b, end)
  {
    forall k | 0 <= k < |a + b|
      ensures CarriedBy((a + b)[k].after) == CarriedAt(a + b, end, k + 1)
    {
      assert (a + b)[k] == if k < |a| then a[k] else b[k - |a|];
      assert CarriedAt(a + b, end, k + 1) ==
        if k + 1 < |a| then CarriedAt(a, mid, k + 1) else CarriedAt(b, end, k + 1 - |a|);
    }
  }

  lemma LoggingCarriesOn(b: Base, e: Envelope, now: real, status: Status)
    requires status != AutoRollback
    ensures CarriedBy(Logged(b, e, now, status)) == CarriedBy(b)
  {
    RollbackLogAppend(b.events, CommandEvent(now, e.vehicle, e.commandId, e.key, status));
  }

  lemma OneLink(t: Tried)
    ensures Chain(CarriedBy(t.before), [t], CarriedBy(t.after))
  {
  }

  lemma {:induction false} RetriesChain(cfg: Config, b: Base, e: Envelope, k: nat, script: seq<Attempt>)
    ensures var sent := TryAll(cfg, b, e, k, script); Chain(CarriedBy(b), sent.tries, CarriedBy(sent.base))
    decreases |script|
  {
    if script != [] {
      var (next, ok) := TryOnce(cfg, b, e, script[0]);
      var t := Tried(b, e, script[0], next, ok);
      OneLink(t);
      if !ok && |script| == 1 {
        LoggingCarriesOn(next, e, script[0].now, SendFailed);
      } else if !ok {
        RetriesChain(cfg, next, e, k + 1, script[1..]);
        var rest := TryAll(cfg, next, e, k + 1, script[1..]);
        ChainConcat(CarriedBy(b), [t], CarriedBy(next), rest.tries, CarriedBy(rest.base));
      }
    }
  }

  lemma JobChains(cfg: Config, b: Base, job: Job)
    ensures var sent := Perform(cfg, b, job); Chain(CarriedBy(b), sent.tries, CarriedBy(sent.base))
  {
    if job.Command? {
      var purged := PurgedBase(cfg, b, job.now);
      LoggingCarriesOn(purged, job.envelope, job.now, DuplicateSkip);
      RetriesChain(cfg, purged, job.envelope, 0, job.script);
    }
  }

  lemma {:induction false} JobsChain(cfg: Config, b: Base, jobs: seq<Job>)
    ensures var (last, tries) := RunJobs(cfg, b, jobs); Chain(CarriedBy(b), tries, CarriedBy(last))
    decreases |jobs|
  {
    if jobs != [] {
      var sent := Perform(cfg, b, jobs[0]);
      JobChains(cfg, b, jobs[0]);
      JobsChain(cfg, sent.base, jobs[1..]);
      var (last, tries) := RunJobs(cfg, sent.base, jobs[1..]);
      ChainConcat(CarriedBy(b), sent.tries, CarriedBy(sent.base), tries, CarriedBy(last));
    }
  }

  // ---------- Nonces ----------

  function Reach(cfg: Config): nat {
    if cfg.nonceWindow < 0 then 0 else cfg.nonceWindow
  }

  /** The nonce an accepted attempt was acknowledged with. */
  function AcceptedNonce(t: Tried): Option<int> {
    if t.ok && t.attempt.reply.Replied? && t.attempt.reply.ack.nonce.Nonce?
    then Some(t.attempt.reply.ack.nonce.value) else None
  }

  /** What one attempt may do to the stored nonce of a vehicle. */
  ghost predicate NonceStep(cfg: Config, t: Tried, vehicle: string) {
    var before, after := t.before.nonces, t.after.nonces;
    && (vehicle in before ==>
          vehicle in after && before[vehicle] <= after[vehicle] <=
            before[vehicle] + if vehicle == t.envelope.vehicle then Reach(cfg) else 0)
    && (t.ok && vehicle == t.envelope.vehicle ==>
          && AcceptedNonce(t).Some? && vehicle in after && after[vehicle] == AcceptedNonce(t).value
          && (vehicle in before ==> before[vehicle] < AcceptedNonce(t).value))
  }

  lemma OnlyNonceCheckStores(cfg: Config, b: Base, e: Envelope, ack: Ack, now: real)
    requires cfg.ackRequired && cfg.requireNonce
    ensures var (next, refusal) := ValidateAck(cfg, b, e, ack, now);
      if ack.id == Some(e.commandId) && CheckNonce(cfg, b.nonces, e.vehicle, ack.nonce).None?
      then ack.nonce.Nonce? && next.nonces == b.nonces[e.vehicle := ack.nonce.value]
      else next.nonces == b.nonces && refusal.Some?
  {
  }

  lemma AttemptAdvancesNonce(cfg: Config, t: Tried, vehicle: string)
    requires cfg.ackRequired && cfg.requireNonce && Genuine(cfg, t)
    ensures NonceStep(cfg, t, vehicle)
  {
    if t.attempt.reply.Replied? && cfg.link != Mqtt(true) {
      OnlyNonceCheckStores(cfg, WithToken(cfg, t.before), t.envelope, t.attempt.reply.ack, t.attempt.now);
    }
  }

  /** The stored nonces before the k-th attempt, or in the end. */
  function NoncesAt(tries: seq<Tried>, end: map<string, int>, k: nat): map<string, int> {
    if k < |tries| then tries[k].before.nonces else end
  }

  /** Every attempt makes a nonce step, and nothing else changes the stored nonces. */
  ghost predicate NonceLaw(cfg: Config, tries: seq<Tried>, end: map<string, int>) {
    && (forall k, v {:trigger NonceStep(cfg, tries[k], v)} | 0 <= k < |tries| :: NonceStep(cfg, tries[k], v))
    && (forall k {:trigger tries[k].after} | 0 <= k < |tries| ::
          tries[k].after.nonces == NoncesAt(tries, end, k + 1))
  }

  lemma JobsKeepNonceLaw(cfg: Config, b: Base, jobs: seq<Job>)
    requires cfg.ackRequired && cfg.requireNonce
    ensures var (last, tries) := RunJobs(cfg, b, jobs);
      NonceLaw(cfg, tries, last.nonces) && NoncesAt(tries, last.nonces, 0) == b.nonces
  {
    JobsChain(cfg, b, jobs);
    JobsAreGenuine(cfg, b, jobs);
    var (last, tries) := RunJobs(cfg, b, jobs);
    forall k, v | 0 <= k < |tries|
      ensures NonceStep(cfg, tries[k], v)
    {
      assert Genuine(cfg, tries[k]);
      AttemptAdvancesNonce(cfg, tries[k], v);
    }
    forall k | 0 <= k < |tries|
      ensures tries[k].after.nonces == NoncesAt(tries, last.nonces, k + 1)
    {
      assert CarriedBy(tries[k].after) == CarriedAt(tries, CarriedBy(last), k + 1);
    }
  }

  function Addressed(tries: seq<Tried>, vehicle: string): nat {
    if tries == [] then 0
    else
      var n := |tries| - 1;
      Addressed(tries[..n], vehicle) + if tries[n].envelope.vehicle == vehicle then 1 else 0
  }

  /** What the attempts from the k-th up to the l-th may add to the stored nonce of a vehicle. */
  function Allowance(tries: seq<Tried>, k: nat, l: nat, vehicle: string, reach: nat): nat
    requires l <= |tries|
  {
    if l <= k then 0
    else Allowance(tries, k, l - 1, vehicle, reach) + if tries[l - 1].envelope.vehicle == vehicle then reach else 0
  }

  lemma {:induction false} AllowanceIsProduct(tries: seq<Tried>, k: nat, l: nat, vehicle: string, reach: nat)
    requires k <= l <= |tries|
    ensures Allowance(tries, k, l, vehicle, reach) == Addressed(tries[k..l], vehicle) * reach
    decreases l
  {
    if k < l {
      AllowanceIsProduct(tries, k, l - 1, vehicle, reach);
      assert tries[k..l][..l - 1 - k] == tries[k..l - 1];
      Distribute(Addressed(tries[k..l - 1], vehicle), reach);
    }
  }

  lemma Distribute(k: nat, m: nat)
    ensures (k + 1) * m == k * m + m && (k + 0) * m == k * m
  {
  }

  lemma NonceMakesStep(cfg: Config, tries: seq<Tried>, end: map<string, int>, k: nat, vehicle: string)
    requires NonceLaw(cfg, tries, end) && k < |tries| && vehicle in NoncesAt(tries, end, k)
    ensures var before, after := NoncesAt(tries, end, k), NoncesAt(tries, end, k + 1);
      && vehicle in after
      && before[vehicle] <= after[vehicle] <=
           before[vehicle] + if tries[k].envelope.vehicle == vehicle then Reach(cfg) else 0
  {
    assert NonceStep(cfg, tries[k], vehicle);
    assert tries[k].after.nonces == NoncesAt(tries, end, k + 1);
  }

  /** A stored nonce never decreases and gains at most the window for each attempt addressed to its vehicle. */
  lemma {:induction false} NonceAdvances(cfg: Config, tries: seq<Tried>, end: map<string, int>, k: nat, l: nat,
                                         vehicle: string)
    requires NonceLaw(cfg, tries, end) && k <= l <= |tries| && vehicle in NoncesAt(tries, end, k)
    ensures var before, after := NoncesAt(tries, end, k), NoncesAt(tries, end, l);
      && vehicle in after
      && before[vehicle] <= after[vehicle] <= before[vehicle] + Allowance(tries, k, l, vehicle, Reach(cfg))
    decreases l
  {
    if k < l {
      NonceAdvances(cfg, tries, end, k, l - 1, vehicle);
      NonceMakesStep(cfg, tries, end, l - 1, vehicle);
    }
  }

  /** The nonces accepted for one vehicle increase strictly. */
  ghost predicate AcceptedIncrease(tries: seq<Tried>) {
    forall i, j |
      0 <= i < j < |tries| && tries[i].ok && tries[j].ok && tries[i].envelope.vehicle == tries[j].envelope.vehicle ::
      && AcceptedNonce(tries[i]).Some? && AcceptedNonce(tries[j]).Some?
      && AcceptedNonce(tries[i]).value < AcceptedNonce(tries[j]).value
  }

  /** The stored nonces bound every accepted one. */
  ghost predicate BoundsAccepted(nonces: map<string, int>, tries: seq<Tried>) {
    forall j | 0 <= j < |tries| && tries[j].ok ::
      && AcceptedNonce(tries[j]).Some? && tries[j].envelope.vehicle in nonces
      && AcceptedNonce(tries[j]).value <= nonces[tries[j].envelope.vehicle]
  }

  lemma AcceptedIsBounded(cfg: Config, tries: seq<Tried>, end: map<string, int>, i: nat, j: nat)
    requires NonceLaw(cfg, tries, end) && i < j <= |tries| && tries[i].ok
    ensures AcceptedNonce(tries[i]).Some? && tries[i].envelope.vehicle in NoncesAt(tries, end, j)
    ensures AcceptedNonce(tries[i]).value <= NoncesAt(tries, end, j)[tries[i].envelope.vehicle]
  {
    assert NonceStep(cfg, tries[i], tries[i].envelope.vehicle);
    NonceAdvances(cfg, tries, end, i + 1, j, tries[i].envelope.vehicle);
  }

  lemma AcceptedAreOrdered(cfg: Config, tries: seq<Tried>, end: map<string, int>)
    requires NonceLaw(cfg, tries, end)
    ensures AcceptedIncrease(tries) && BoundsAccepted(end, tries)
  {
    forall i, j |
      0 <= i < j < |tries| && tries[i].ok && tries[j].ok && tries[i].envelope.vehicle == tries[j].envelope.vehicle
      ensures AcceptedNonce(tries[i]).Some? && AcceptedNonce(tries[j]).Some?
      ensures AcceptedNonce(tries[i]).value < AcceptedNonce(tries[j]).value
    {
      AcceptedIsBounded(cfg, tries, end, i, j);
      assert NonceStep(cfg, tries[j], tries[j].envelope.vehicle);
    }
    forall j | 0 <= j < |tries| && tries[j].ok
      ensures AcceptedNonce(tries[j]).Some? && tries[j].envelope.vehicle in end
      ensures AcceptedNonce(tries[j]).value <= end[tries[j].envelope.vehicle]
    {
      AcceptedIsBounded(cfg, tries, end, j, |tries|);
    }
  }

  /** Over these attempts no stored nonce decreases, nor gains more than the window for each one addressed to it. */
  ghost predicate Advances(cfg: Config, from: map<string, int>, tries: seq<Tried>, to: map<string, int>) {
    forall v | v in from :: v in to && from[v] <= to[v] <= from[v] + Addressed(tries, v) * Reach(cfg)
  }

  lemma NoncesAdvance(cfg: Config, tries: seq<Tried>, end: map<string, int>, k: nat, l: nat)
    requires NonceLaw(cfg, tries, end) && k <= l <= |tries|
    ensures Advances(cfg, NoncesAt(tries, end, k), tries[k..l], NoncesAt(tries, end, l))
  {
    forall v | v in NoncesAt(tries, end, k)
      ensures var before, after := NoncesAt(tries, end, k), NoncesAt(tries, end, l);
        v in after && before[v] <= after[v] <= before[v] + Addressed(tries[k..l], v) * Reach(cfg)
    {
      NonceAdvances(cfg, tries, end, k, l, v);
      AllowanceIsProduct(tries, k, l, v, Reach(cfg));
    }
  }

  /**
   * Over any life of a transport, whichever acknowledgements in between are refused by later checks: the
   * nonces accepted for one vehicle increase strictly, and the stored nonce bounds them. Between any two
   * points of the life, it never decreases once there is one, and it gains at most the window for each
   * attempt addressed to the vehicle.
   */
  lemma NoncesAreSafe(cfg: Config, b: Base, jobs: seq<Job>)
    requires cfg.ackRequired && cfg.requireNonce
    ensures var (last, tries) := RunJobs(cfg, b, jobs);
      && AcceptedIncrease(tries) && BoundsAccepted(last.nonces, tries)
      && NoncesAt(tries, last.nonces, 0) == b.nonces
      && forall k, l | 0 <= k <= l <= |tries| ::
           Advances(cfg, NoncesAt(tries, last.nonces, k), tries[k..l], NoncesAt(tries, last.nonces, l))
  {
    JobsKeepNonceLaw(cfg, b, jobs);
    var (last, tries) := RunJobs(cfg, b, jobs);
    AcceptedAreOrdered(cfg, tries, last.nonces);
    forall k, l | 0 <= k <= l <= |tries|
      ensures Advances(cfg, NoncesAt(tries, last.nonces, k), tries[k..l], NoncesAt(tries, last.nonces, l))
    {
      NoncesAdvance(cfg, tries, last.nonces, k, l);
    }
  }
}
