/** Automatic rollbacks over the life of a transport: the guard, the log and the pinset agree. */
module RollbackProofs {
  import opened Options
  import opened Ledger
  import opened CertPins
  import opened RollbackGuard
  import opened Transport
  import opened TransportProofs
  import opened TransportRuns

  // ---------- The reports of the attempts ----------

  /** The report an attempt makes to the rollback guard, if it makes one. */
  function ReportIn(cfg: Config, t: Tried): Option<Report> {
    if cfg.link == Mqtt(true) || t.attempt.reply.WireFailed? || !t.attempt.reply.ack.vendor.TextVendor? ||
       !cfg.ackRequired then None
    else
      var ack, now := t.attempt.reply.ack, t.attempt.now;
      var (checked, refusal) := ValidateAck(cfg, WithToken(cfg, t.before), t.envelope, ack, now);
      Some(if refusal.None? then Report(true, ack.vendor.id, now, false)
           else ReportOf(checked, false, ack.vendor.id, now))
  }

  function Listed<T>(item: Option<T>): seq<T> {
    if item.None? then [] else [item.value]
  }

  /** The reports that attempts make, in order, if `report` says what each one makes. */
  function Gathered(tries: seq<Tried>, report: Tried -> Option<Report>): seq<Report> {
    if tries == [] then []
    else
      var n := |tries| - 1;
      Gathered(tries[..n], report) + Listed(report(tries[n]))
  }

  function ReportsIn(cfg: Config, tries: seq<Tried>): seq<Report> {
    Gathered(tries, t => ReportIn(cfg, t))
  }

  /** The log entry of the rollback that a report leads to. */
  function EntryFor(policy: RolloutPolicy, g: Guard, r: Report): seq<CommandEvent> {
    if Asks(policy, g, r) && r.works
    then [CommandEvent(r.now, "vendor:" + r.vendor, "rollout_guard", "rollout_guard", AutoRollback)] else []
  }

  /** The log entries that a series of reports justifies. */
  function EntriesFor(policy: RolloutPolicy, reports: seq<Report>): seq<CommandEvent> {
    if reports == [] then []
    else
      var n := |reports| - 1;
      EntriesFor(policy, reports[..n]) + EntryFor(policy, GuardAfter(policy, reports[..n]), reports[n])
  }

  // ---------- What one attempt does ----------

  /** The guard and the logged rollbacks move exactly as the report says. */
  ghost predicate Accounted(policy: RolloutPolicy, before: Base, report: Option<Report>, after: Base) {
    match report
    case None => after.guard == before.guard && RollbackLog(after.events) == RollbackLog(before.events)
    case Some(r) =>
      && after.guard == Recorded(policy, before.guard, r)
      && RollbackLog(after.events) == RollbackLog(before.events) + EntryFor(policy, before.guard, r)
  }

  lemma RecordingIsAccounted(cfg: Config, b: Base, success: bool, vendor: string, now: real)
    ensures Accounted(cfg.rollout, b, Some(ReportOf(b, success, vendor, now)),
                      RecordOutcome(cfg, b, success, vendor, now))
    ensures success ==> Accounted(cfg.rollout, b, Some(Report(true, vendor, now, false)),
                                  RecordOutcome(cfg, b, success, vendor, now))
  {
    RollbackLogAppend(b.events, GuardEvent(vendor, now, AutoRollback));
    RollbackLogAppend(b.events, GuardEvent(vendor, now, AutoRollbackFailed));
  }

  /** The report of a passed check. */
  function SuccessReport(refusal: Option<Refusal>, ack: Ack, now: real): Option<Report> {
    if refusal.None? && ack.vendor.TextVendor? then Some(Report(true, ack.vendor.id, now, false)) else None
  }

  lemma OriginIsAccounted(cfg: Config, b: Base, ack: Ack, now: real)
    ensures var (next, refusal) := CheckOrigin(cfg, b, ack, now);
      Accounted(cfg.rollout, b, SuccessReport(refusal, ack, now), next)
  {
    var checked := if cfg.requireCertificate then CheckCertificate(b, ack, now).0 else b;
    if ack.vendor.TextVendor? {
      RecordingIsAccounted(cfg, checked, true, ack.vendor.id, now);
    }
  }

  lemma ValidationIsAccounted(cfg: Config, b: Base, e: Envelope, ack: Ack, now: real)
    requires cfg.ackRequired
    ensures var (next, refusal) := ValidateAck(cfg, b, e, ack, now);
      Accounted(cfg.rollout, b, SuccessReport(refusal, ack, now), next)
  {
    if !cfg.requireNonce {
      OriginIsAccounted(cfg, b, ack, now);
    } else if ack.nonce.Nonce? {
      OriginIsAccounted(cfg, b.(nonces := b.nonces[e.vehicle := ack.nonce.value]), ack, now);
    }
  }

  lemma AttemptIsAccounted(cfg: Config, t: Tried)
    requires Genuine(cfg, t)
    ensures Accounted(cfg.rollout, t.before, ReportIn(cfg, t), t.after)
  {
    if cfg.link != Mqtt(true) && t.attempt.reply.Replied? {
      var ack, now, start := t.attempt.reply.ack, t.attempt.now, WithToken(cfg, t.before);
      var (checked, refusal) := ValidateAck(cfg, start, t.envelope, ack, now);
      if cfg.ackRequired {
        ValidationIsAccounted(cfg, start, t.envelope, ack, now);
      }
      if refusal.None? {
        RollbackLogAppend(checked.events,
          CommandEvent(now, t.envelope.vehicle, t.envelope.commandId, t.envelope.key, AckOk));
      } else if ack.vendor.TextVendor? {
        RecordingIsAccounted(cfg, checked, false, ack.vendor.id, now);
      }
    }
  }

  /**
   * Exactly when an attempt rolls pins back: it asks for it, and its vendor has previous pins after the
   * check. Then, and only then, the log says so.
   */
  lemma AttemptRollsBackIff(cfg: Config, t: Tried)
    requires Genuine(cfg, t)
    ensures RollbackLog(t.after.events) == RollbackLog(t.before.events) +
      if AsksForRollback(cfg, t.before, t.envelope, t.attempt) && cfg.ackRequired &&
         HasPrevious(CheckedPins(cfg, t.before, t.envelope, t.attempt.reply.ack, t.attempt.now),
                     t.attempt.reply.ack.vendor.id)
      then [CommandEvent(t.attempt.now, "vendor:" + t.attempt.reply.ack.vendor.id, "rollout_guard", "rollout_guard",
                         AutoRollback)]
      else []
  {
    AttemptIsAccounted(cfg, t);
    assert RollbackLog(t.before.events) + [] == RollbackLog(t.before.events);
    if cfg.link != Mqtt(true) && t.attempt.reply.Replied? {
      var start, ack, now := WithToken(cfg, t.before), t.attempt.reply.ack, t.attempt.now;
      ValidationChecksPins(cfg, start, t.envelope, ack, now);
      ValidationPassesIff(cfg, start, t.envelope, ack, now);
    }
  }

  predicate HasPrevious(store: Store, id: string) {
    id in store && store[id].previous != []
  }

  // ---------- What whole lives do ----------

  /** The guard has seen exactly these reports, and these rollbacks were logged before. */
  ghost predicate Balanced(policy: RolloutPolicy, begin: seq<CommandEvent>, reports: seq<Report>, c: Carried) {
    c.guard == GuardAfter(policy, reports) && c.rollbacks == begin + EntriesFor(policy, reports)
  }

  lemma BalancedStep(policy: RolloutPolicy, begin: seq<CommandEvent>, reports: seq<Report>, before: Base,
                     report: Option<Report>, after: Base)
    requires Balanced(policy, begin, reports, CarriedBy(before)) && Accounted(policy, before, report, after)
    ensures Balanced(policy, begin, reports + Listed(report), CarriedBy(after))
  {
    if report.Some? {
      assert (reports + [report.value])[..|reports|] == reports;
    } else {
      assert reports + [] == reports;
    }
  }

  lemma {:induction false} ChainBalances(policy: RolloutPolicy, begin: seq<CommandEvent>, from: Carried,
                                         tries: seq<Tried>, end: Carried, report: Tried -> Option<Report>, k: nat)
    requires Chain(from, tries, end) && k <= |tries| && Balanced(policy, begin, [], from)
    requires forall t | t in tries :: Accounted(policy, t.before, report(t), t.after)
    ensures Balanced(policy, begin, Gathered(tries[..k], report), CarriedAt(tries, end, k))
  {
    if k > 0 {
      ChainBalances(policy, begin, from, tries, end, report, k - 1);
      var t := tries[k - 1];
      BalancedStep(policy, begin, Gathered(tries[..k - 1], report), t.before, report(t), t.after);
      assert tries[..k][..k - 1] == tries[..k - 1];
    }
  }

  lemma JobsBalance(cfg: Config, b: Base, jobs: seq<Job>)
    requires b.guard == NEW_GUARD
    ensures var (last, tries) := RunJobs(cfg, b, jobs);
      Balanced(cfg.rollout, RollbackLog(b.events), ReportsIn(cfg, tries), CarriedBy(last))
  {
    var (last, tries) := RunJobs(cfg, b, jobs);
    JobsChain(cfg, b, jobs);
    JobsAreGenuine(cfg, b, jobs);
    forall t | t in tries
      ensures Accounted(cfg.rollout, t.before, ReportIn(cfg, t), t.after)
    {
      assert Genuine(cfg, t);
      AttemptIsAccounted(cfg, t);
    }
    assert RollbackLog(b.events) + [] == RollbackLog(b.events);
    ChainBalances(cfg.rollout, RollbackLog(b.events), CarriedBy(b), tries, CarriedBy(last),
                  t => ReportIn(cfg, t), |tries|);
    assert tries[..|tries|] == tries;
  }

  lemma {:induction false} ReportsAreFewer(tries: seq<Tried>, report: Tried -> Option<Report>)
    ensures |Gathered(tries, report)| <= |tries|
  {
    if tries != [] {
      ReportsAreFewer(tries[..|tries| - 1], report);
    }
  }

  lemma {:induction false} EntriesAreCounted(policy: RolloutPolicy, reports: seq<Report>)
    ensures |EntriesFor(policy, reports)| == Rollbacks(policy, reports)
  {
    if reports != [] {
      EntriesAreCounted(policy, reports[..|reports| - 1]);
    }
  }

  /**
   * Over any life of a transport, whatever its ledger and pinset: the window of the guard is the recent
   * history of the reports of its attempts; the log gains exactly the entries of the rollbacks that these
   * reports justify, in order; and each of these uses up `minSamples` reports, of which an attempt makes
   * one at most.
   */
  lemma RollbacksAreAccounted(cfg: Config, b: Base, jobs: seq<Job>)
    requires b.guard == NEW_GUARD
    ensures var (last, tries) := RunJobs(cfg, b, jobs);
      var reports := ReportsIn(cfg, tries);
      var added := EntriesFor(cfg.rollout, reports);
      && last.guard.outcomes == Successes(reports[WindowStart(cfg.rollout, reports)..])
      && RollbackLog(last.events) == RollbackLog(b.events) + added
      && |added| == Rollbacks(cfg.rollout, reports)
      && (cfg.rollout.minSamples >= 1 ==>
            && |added| * cfg.rollout.minSamples <= |reports| <= |tries|
            && (cfg.rollout.minSamples > cfg.rollout.windowSize ==> added == []))
  {
    var reports := ReportsIn(cfg, RunJobs(cfg, b, jobs).1);
    JobsBalance(cfg, b, jobs);
    WindowIsRecentHistory(cfg.rollout, reports);
    EntriesAreCounted(cfg.rollout, reports);
    if cfg.rollout.minSamples >= 1 {
      RollbacksAreRare(cfg.rollout, reports);
      ReportsAreFewer(RunJobs(cfg, b, jobs).1, t => ReportIn(cfg, t));
    }
  }

  // ---------- The times of the rollbacks ----------

  ghost predicate TimesInOrder(from: real, tries: seq<Tried>) {
    && (forall i | 0 <= i < |tries| :: from <= tries[i].attempt.now)
    && (forall i, j | 0 <= i < j < |tries| :: tries[i].attempt.now <= tries[j].attempt.now)
  }

  lemma {:induction false} RetriesFollowScript(cfg: Config, b: Base, e: Envelope, k: nat, script: seq<Attempt>)
    ensures var tries := TryAll(cfg, b, e, k, script).tries;
      |tries| <= |script| && forall i | 0 <= i < |tries| :: tries[i].attempt == script[i]
    decreases |script|
  {
    if script != [] {
      RetriesFollowScript(cfg, TryOnce(cfg, b, e, script[0]).0, e, k + 1, script[1..]);
    }
  }

  lemma {:induction false} JobsTryInOrder(cfg: Config, b: Base, jobs: seq<Job>, from: real)
    requires OneAfterTheOther(from, jobs)
    ensures TimesInOrder(from, RunJobs(cfg, b, jobs).1)
    decreases |jobs|
  {
    if jobs != [] {
      var job := jobs[0];
      if job.Command? {
        RetriesFollowScript(cfg, PurgedBase(cfg, b, job.now), job.envelope, 0, job.script);
      }
      var sent := Perform(cfg, b, job);
      JobsTryInOrder(cfg, sent.base, jobs[1..], EndOf(job));
      TimesConcat(from, sent.tries, EndOf(job), RunJobs(cfg, sent.base, jobs[1..]).1);
    }
  }

  lemma TimesConcat(from: real, a: seq<Tried>, mid: real, b: seq<Tried>)
    requires TimesInOrder(from, a) && TimesInOrder(mid, b) && from <= mid
    requires forall i | 0 <= i < |a| :: a[i].attempt.now <= mid
    ensures TimesInOrder(from, a + b)
  {
  }

  lemma {:induction false} ReportsKeepOrder(tries: seq<Tried>, report: Tried -> Option<Report>, from: real, to: real)
    requires TimesInOrder(from, tries) && forall t | t in tries :: t.attempt.now <= to
    requires forall t | t in tries && report(t).Some? :: report(t).value.now == t.attempt.now
    ensures InOrder(Gathered(tries, report)) && forall r | r in Gathered(tries, report) :: r.now <= to
  {
    if tries != [] {
      var n := |tries| - 1;
      ReportsKeepOrder(tries[..n], report, from, tries[n].attempt.now);
    }
  }

  /** The report that led to an entry. */
  ghost predicate LedTo(policy: RolloutPolicy, reports: seq<Report>, k: nat, entry: CommandEvent) {
    && k < |reports| && RolledBackAt(policy, reports, k)
    && entry == GuardEvent(reports[k].vendor, reports[k].now, AutoRollback)
  }

  lemma LedToEarlier(policy: RolloutPolicy, reports: seq<Report>, n: nat, k: nat, entry: CommandEvent)
    requires n <= |reports| && LedTo(policy, reports[..n], k, entry)
    ensures LedTo(policy, reports, k, entry)
  {
    assert reports[..n][..k] == reports[..k];
  }

  lemma {:induction false} EntryHasReport(policy: RolloutPolicy, reports: seq<Report>, i: nat) returns (k: nat)
    requires i < |EntriesFor(policy, reports)|
    ensures LedTo(policy, reports, k, EntriesFor(policy, reports)[i])
  {
    var n := |reports| - 1;
    if i < |EntriesFor(policy, reports[..n])| {
      k := EntryHasReport(policy, reports[..n], i);
      LedToEarlier(policy, reports, n, k, EntriesFor(policy, reports)[i]);
    } else {
      k := n;
    }
  }

  lemma {:induction false} EntriesHaveReports(policy: RolloutPolicy, reports: seq<Report>, i: nat, j: nat)
    returns (k: nat, l: nat)
    requires i < j < |EntriesFor(policy, reports)|
    ensures LedTo(policy, reports, k, EntriesFor(policy, reports)[i])
    ensures LedTo(policy, reports, l, EntriesFor(policy, reports)[j])
    ensures k < l
  {
    var n := |reports| - 1;
    if j < |EntriesFor(policy, reports[..n])| {
      k, l := EntriesHaveReports(policy, reports[..n], i, j);
      LedToEarlier(policy, reports, n, l, EntriesFor(policy, reports)[j]);
    } else {
      k := EntryHasReport(policy, reports[..n], i);
      l := n;
    }
    LedToEarlier(policy, reports, n, k, EntriesFor(policy, reports)[i]);
  }

  lemma SubjectsSeparate(v: string, w: string)
    ensures "vendor:" + v == "vendor:" + w ==> v == w
  {
    assert ("vendor:" + v)[7..] == v && ("vendor:" + w)[7..] == w;
  }

  lemma EntriesAreApart(policy: RolloutPolicy, reports: seq<Report>)
    requires InOrder(reports)
    ensures ApartPerSubject(policy.cooldown, EntriesFor(policy, reports))
  {
    var entries := EntriesFor(policy, reports);
    forall i, j | 0 <= i < j < |entries| && entries[i].subject == entries[j].subject
      ensures entries[j].ts - entries[i].ts >= policy.cooldown
    {
      var k, l := EntriesHaveReports(policy, reports, i, j);
      SubjectsSeparate(reports[k].vendor, reports[l].vendor);
      RollbacksCoolDown(policy, reports, k, l);
    }
  }

  ghost predicate ApartPerSubject(cooldown: real, entries: seq<CommandEvent>) {
    forall i, j | 0 <= i < j < |entries| && entries[i].subject == entries[j].subject ::
      entries[j].ts - entries[i].ts >= cooldown
  }

  lemma JobsReportInOrder(cfg: Config, b: Base, jobs: seq<Job>, from: real)
    requires OneAfterTheOther(from, jobs)
    ensures InOrder(ReportsIn(cfg, RunJobs(cfg, b, jobs).1))
  {
    var tries := RunJobs(cfg, b, jobs).1;
    JobsTryInOrder(cfg, b, jobs, from);
    if tries != [] {
      ReportsKeepOrder(tries, t => ReportIn(cfg, t), from, tries[|tries| - 1].attempt.now);
    }
  }

  /** Of the rollbacks that a transport logs during its life, two of one vendor are at least the cooldown apart. */
  lemma RollbacksOfOneVendorAreApart(cfg: Config, b: Base, jobs: seq<Job>, from: real)
    requires b.guard == NEW_GUARD && OneAfterTheOther(from, jobs)
    ensures var before, after := RollbackLog(b.events), RollbackLog(RunJobs(cfg, b, jobs).0.events);
      before <= after && ApartPerSubject(cfg.rollout.cooldown, after[|before|..])
  {
    JobsReportInOrder(cfg, b, jobs, from);
    EntriesAreApart(cfg.rollout, ReportsIn(cfg, RunJobs(cfg, b, jobs).1));
    JobsBalance(cfg, b, jobs);
  }

  lemma UnconfirmedAttempt(cfg: Config, b: Base, e: Envelope, ack: Ack, now: real)
    requires b.guard == NEW_GUARD && cfg.link != Mqtt(true) && cfg.ackRequired
    requires cfg.rollout.enabled && cfg.rollout.minSamples <= 1 && cfg.rollout.threshold <= 1.0
    requires now >= cfg.rollout.cooldown && ack.vendor.TextVendor? && ack.id != Some(e.commandId)
    requires ack.vendor.id in b.store && b.store[ack.vendor.id].previous != []
    ensures var (next, ok) := TryOnce(cfg, b, e, Attempt(now, Replied(ack)));
      && !ok && next.store == Apply(b.store, ack.vendor.id, now, Rollback)
      && RollbackLog(next.events) == RollbackLog(b.events) + [GuardEvent(ack.vendor.id, now, AutoRollback)]
  {
    assert [] + [false] == [false] && [false][..0] == [];
    RollbackLogAppend(b.events, GuardEvent(ack.vendor.id, now, AutoRollback));
  }

  /**
   * Rollbacks do happen: where one failed sample is enough, an answer that does not confirm its command
   * rolls the vendor back, if there is something to roll back to.
   */
  lemma UnconfirmedAnswerRollsBack(cfg: Config, b: Base, e: Envelope, ack: Ack, now: real)
    requires b.guard == NEW_GUARD && cfg.link != Mqtt(true) && cfg.ackRequired && cfg.maxAttempts == 1
    requires cfg.rollout.enabled && cfg.rollout.minSamples <= 1 && cfg.rollout.threshold <= 1.0
    requires now >= cfg.rollout.cooldown && ack.vendor.TextVendor? && ack.id != Some(e.commandId)
    requires ack.vendor.id in b.store && b.store[ack.vendor.id].previous != []
    requires !(cfg.deduplicate && Duplicate(b.keys, now, e.key))
    ensures var last := Perform(cfg, b, Command(now, e, [Attempt(now, Replied(ack))])).base;
      && last.store == Apply(b.store, ack.vendor.id, now, Rollback)
      && RollbackLog(last.events) == RollbackLog(b.events) + [GuardEvent(ack.vendor.id, now, AutoRollback)]
  {
    var start, attempt := PurgedBase(cfg, b, now), Attempt(now, Replied(ack));
    UnconfirmedAttempt(cfg, start, e, ack, now);
    var next := TryOnce(cfg, start, e, attempt).0;
    LoggingCarriesOn(next, e, now, SendFailed);
    OneAttemptOnly(cfg, start, e, attempt);
  }

  lemma OneAttemptOnly(cfg: Config, b: Base, e: Envelope, attempt: Attempt)
    ensures var (next, ok) := TryOnce(cfg, b, e, attempt);
      TryAll(cfg, b, e, 0, [attempt]).base == if ok then next else Logged(next, e, attempt.now, SendFailed)
  {
  }
}
