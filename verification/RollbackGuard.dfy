/** The sliding window of acknowledgement outcomes that decides about automatic pin rollback. */
module RollbackGuard {
  datatype RolloutPolicyConfig = RolloutPolicyConfig(
    enabled: bool, windowSize: int, threshold: real, minSamples: int, cooldown: real)

  /** Loading a configuration clamps the window size to at least one. */
  type RolloutPolicy = p: RolloutPolicyConfig | p.windowSize >= 1
    witness RolloutPolicyConfig(true, 20, 0.4, 5, 30.0)

  datatype Guard = Guard(outcomes: seq<bool>, lastRollback: map<string, real>)

  const NEW_GUARD := Guard([], map[])

  function Last<T>(n: nat, items: seq<T>): seq<T> {
    if |items| <= n then items else items[|items| - n..]
  }

  function Failures(outcomes: seq<bool>): nat {
    if outcomes == [] then 0
    else Failures(outcomes[..|outcomes| - 1]) + if outcomes[|outcomes| - 1] then 0 else 1
  }

  predicate Breached(policy: RolloutPolicy, outcomes: seq<bool>)
    requires outcomes != []
  {
    |outcomes| >= policy.minSamples && Failures(outcomes) as real / |outcomes| as real >= policy.threshold
  }

  /** A failure report with this window asks for a rollback: enough samples, enough failures, cooled down. */
  predicate Due(policy: RolloutPolicy, outcomes: seq<bool>, lastRollback: map<string, real>, vendor: string, now: real)
    requires outcomes != []
  {
    && policy.enabled
    && Breached(policy, outcomes)
    && now - (if vendor in lastRollback then lastRollback[vendor] else 0.0) >= policy.cooldown
  }

  /** One recorded outcome; `works` says whether the pinset has anything to roll back to. */
  datatype Report = Report(success: bool, vendor: string, now: real, works: bool)

  function Window(policy: RolloutPolicy, outcomes: seq<bool>, success: bool): (w: seq<bool>)
    ensures w != []
  {
    Last(policy.windowSize, outcomes + [success])
  }

  predicate Asks(policy: RolloutPolicy, g: Guard, r: Report) {
    !r.success && Due(policy, Window(policy, g.outcomes, r.success), g.lastRollback, r.vendor, r.now)
  }

  function Recorded(policy: RolloutPolicy, g: Guard, r: Report): Guard {
    if Asks(policy, g, r) && r.works then Guard([], g.lastRollback[r.vendor := r.now])
    else g.(outcomes := Window(policy, g.outcomes, r.success))
  }

  // ---------- Accounting over any sequence of reports ----------

  function GuardAfter(policy: RolloutPolicy, reports: seq<Report>): Guard {
    if reports == [] then NEW_GUARD
    else Recorded(policy, GuardAfter(policy, reports[..|reports| - 1]), reports[|reports| - 1])
  }

  /** The i-th report led to a successful rollback. */
  predicate RolledBackAt(policy: RolloutPolicy, reports: seq<Report>, i: nat)
    requires i < |reports|
  {
    Asks(policy, GuardAfter(policy, reports[..i]), reports[i]) && reports[i].works
  }

  /** The outcomes recorded since the last successful rollback, all of them. */
  function SinceRollback(policy: RolloutPolicy, reports: seq<Report>): seq<bool> {
    if reports == [] then []
    else
      var n := |reports| - 1;
      if RolledBackAt(policy, reports, n) then []
      else SinceRollback(policy, reports[..n]) + [reports[n].success]
  }

  function Rollbacks(policy: RolloutPolicy, reports: seq<Report>): nat {
    if reports == [] then 0
    else
      var n := |reports| - 1;
      Rollbacks(policy, reports[..n]) + if RolledBackAt(policy, reports, n) then 1 else 0
  }

  lemma LastOfLast<T>(n: nat, items: seq<T>, item: T)
    requires n >= 1
    ensures Last(n, Last(n, items) + [item]) == Last(n, items + [item])
  {
  }

  function Successes(reports: seq<Report>): seq<bool> {
    seq(|reports|, i requires 0 <= i < |reports| => reports[i].success)
  }

  /** How many reports there were up to the last successful rollback. */
  function UpToRollback(policy: RolloutPolicy, reports: seq<Report>): (m: nat)
    ensures m <= |reports|
  {
    if reports == [] then 0
    else
      var n := |reports| - 1;
      if RolledBackAt(policy, reports, n) then n + 1 else UpToRollback(policy, reports[..n])
  }

  lemma SuccessesMore(reports: seq<Report>, m: nat, n: nat)
    requires m <= n < |reports|
    ensures Successes(reports[m..n + 1]) == Successes(reports[..n][m..]) + [reports[n].success]
  {
  }

  lemma LastSuccesses(reports: seq<Report>, m: nat, size: nat)
    requires m <= |reports|
    ensures Last(size, Successes(reports[m..])) ==
      Successes(reports[if |reports| - m <= size then m else |reports| - size..])
  {
  }

  lemma RolledBackEarlier(policy: RolloutPolicy, reports: seq<Report>, n: nat, k: nat)
    requires k < n <= |reports|
    ensures RolledBackAt(policy, reports[..n], k) <==> RolledBackAt(policy, reports, k)
  {
    assert reports[..n][..k] == reports[..k];
  }

  lemma NoRollbackAtEnd(policy: RolloutPolicy, reports: seq<Report>)
    requires reports != [] && !RolledBackAt(policy, reports, |reports| - 1)
    ensures UpToRollback(policy, reports) == UpToRollback(policy, reports[..|reports| - 1])
  {
  }

  /** No report since then led to a rollback. */
  lemma {:induction false} NoRollbackSince(policy: RolloutPolicy, reports: seq<Report>, k: nat)
    requires UpToRollback(policy, reports) <= k < |reports|
    ensures !RolledBackAt(policy, reports, k)
  {
    var n := |reports| - 1;
    if k < n {
      NoRollbackAtEnd(policy, reports);
      NoRollbackSince(policy, reports[..n], k);
      RolledBackEarlier(policy, reports, n, k);
    }
  }

  /** The report before did. */
  lemma {:induction false} LastRollback(policy: RolloutPolicy, reports: seq<Report>)
    requires UpToRollback(policy, reports) > 0
    ensures RolledBackAt(policy, reports, UpToRollback(policy, reports) - 1)
  {
    var n := |reports| - 1;
    if !RolledBackAt(policy, reports, n) {
      NoRollbackAtEnd(policy, reports);
      LastRollback(policy, reports[..n]);
      RolledBackEarlier(policy, reports, n, UpToRollback(policy, reports) - 1);
    }
  }

  lemma {:induction false} OutcomesSinceRollback(policy: RolloutPolicy, reports: seq<Report>)
    ensures SinceRollback(policy, reports) == Successes(reports[UpToRollback(policy, reports)..])
  {
    if reports != [] && !RolledBackAt(policy, reports, |reports| - 1) {
      var n := |reports| - 1;
      OutcomesSinceRollback(policy, reports[..n]);
      SuccessesMore(reports, UpToRollback(policy, reports[..n]), n);
      assert reports[..n + 1] == reports;
      assert reports[UpToRollback(policy, reports)..n + 1] == reports[UpToRollback(policy, reports)..];
    }
  }

  lemma {:induction false} WindowIsLastSince(policy: RolloutPolicy, reports: seq<Report>)
    ensures GuardAfter(policy, reports).outcomes == Last(policy.windowSize, SinceRollback(policy, reports))
  {
    if reports != [] {
      var n := |reports| - 1;
      WindowIsLastSince(policy, reports[..n]);
      LastOfLast(policy.windowSize, SinceRollback(policy, reports[..n]), reports[n].success);
    }
  }

  /** Where the window of the guard begins in the list of reports. */
  function WindowStart(policy: RolloutPolicy, reports: seq<Report>): (lo: nat)
    ensures lo <= |reports|
  {
    var m := UpToRollback(policy, reports);
    if |reports| - m <= policy.windowSize then m else |reports| - policy.windowSize
  }

  /**
   * The window holds the outcomes of the last reports: of all of them since the last successful rollback,
   * or of the last `windowSize` ones, if these are fewer.
   */
  lemma WindowIsRecentHistory(policy: RolloutPolicy, reports: seq<Report>)
    ensures var lo, m := WindowStart(policy, reports), UpToRollback(policy, reports);
      && GuardAfter(policy, reports).outcomes == Successes(reports[lo..])
      && m <= lo && |reports| - lo <= policy.windowSize
      && (lo == m || |reports| - lo == policy.windowSize)
  {
    WindowIsLastSince(policy, reports);
    OutcomesSinceRollback(policy, reports);
    LastSuccesses(reports, UpToRollback(policy, reports), policy.windowSize);
  }

  lemma RecordingKeepsRollbackTimes(policy: RolloutPolicy, g: Guard, r: Report, vendor: string, since: real)
    requires vendor in g.lastRollback && since <= g.lastRollback[vendor] && since <= r.now
    ensures var next := Recorded(policy, g, r);
      vendor in next.lastRollback && since <= next.lastRollback[vendor]
  {
  }

  ghost predicate InOrder(reports: seq<Report>) {
    forall i, j | 0 <= i < j < |reports| :: reports[i].now <= reports[j].now
  }

  lemma {:induction false} RollbackTimesAreKept(policy: RolloutPolicy, reports: seq<Report>, from: nat, n: nat,
                                                vendor: string, since: real)
    requires from <= n <= |reports| && forall k | from <= k < n :: since <= reports[k].now
    requires var g := GuardAfter(policy, reports[..from]);
      vendor in g.lastRollback && since <= g.lastRollback[vendor]
    ensures var g := GuardAfter(policy, reports[..n]);
      vendor in g.lastRollback && since <= g.lastRollback[vendor]
    decreases n
  {
    if from < n {
      RollbackTimesAreKept(policy, reports, from, n - 1, vendor, since);
      assert reports[..n][..n - 1] == reports[..n - 1];
      RecordingKeepsRollbackTimes(policy, GuardAfter(policy, reports[..n - 1]), reports[n - 1], vendor, since);
    }
  }

  lemma RollbackIsRecorded(policy: RolloutPolicy, reports: seq<Report>, i: nat)
    requires i < |reports| && RolledBackAt(policy, reports, i)
    ensures var g := GuardAfter(policy, reports[..i + 1]);
      reports[i].vendor in g.lastRollback && g.lastRollback[reports[i].vendor] == reports[i].now
  {
    assert reports[..i + 1][..i] == reports[..i];
  }

  /** Two successful rollbacks of one vendor are at least the cooldown apart. */
  lemma RollbacksCoolDown(policy: RolloutPolicy, reports: seq<Report>, i: nat, j: nat)
    requires i < j < |reports| && reports[i].vendor == reports[j].vendor
    requires RolledBackAt(policy, reports, i) && RolledBackAt(policy, reports, j) && InOrder(reports)
    ensures reports[j].now - reports[i].now >= policy.cooldown
  {
    RollbackIsRecorded(policy, reports, i);
    RollbackTimesAreKept(policy, reports, i + 1, j, reports[i].vendor, reports[i].now);
  }

  lemma RateMeansCount(failures: real, samples: real, threshold: real)
    requires samples > 0.0
    ensures failures / samples >= threshold <==> failures >= threshold * samples
  {
    var rate := failures / samples;
    assert failures == rate * samples;
    assert (rate - threshold) * samples == failures - threshold * samples;
  }

  /** A window that justifies a rollback: enough samples, enough of them failures. */
  ghost predicate Alarming(policy: RolloutPolicy, window: seq<bool>) {
    && policy.minSamples <= |window| <= policy.windowSize
    && multiset(window)[false] as real >= policy.threshold * |window| as real
  }

  lemma {:induction false} FailuresAreCounted(window: seq<bool>)
    ensures Failures(window) == multiset(window)[false]
  {
    if window != [] {
      var n := |window| - 1;
      FailuresAreCounted(window[..n]);
      assert window == window[..n] + [window[n]];
    }
  }

  lemma BreachedIsAlarming(policy: RolloutPolicy, window: seq<bool>)
    requires window != [] && |window| <= policy.windowSize
    ensures Breached(policy, window) <==> Alarming(policy, window)
  {
    FailuresAreCounted(window);
    RateMeansCount(Failures(window) as real, |window| as real, policy.threshold);
  }

  /** The time of the last successful rollback of a vendor, or zero. */
  function LastTime(policy: RolloutPolicy, reports: seq<Report>, vendor: string): real {
    if reports == [] then 0.0
    else
      var n := |reports| - 1;
      if RolledBackAt(policy, reports, n) && reports[n].vendor == vendor then reports[n].now
      else LastTime(policy, reports[..n], vendor)
  }

  lemma {:induction false} LastTimeIsKept(policy: RolloutPolicy, reports: seq<Report>, vendor: string)
    ensures var g := GuardAfter(policy, reports);
      LastTime(policy, reports, vendor) == if vendor in g.lastRollback then g.lastRollback[vendor] else 0.0
  {
    if reports != [] {
      LastTimeIsKept(policy, reports[..|reports| - 1], vendor);
    }
  }

  /** The window with which the i-th report is judged: its own outcome and those before it that count. */
  function WindowAt(policy: RolloutPolicy, reports: seq<Report>, i: nat): seq<bool>
    requires i < |reports|
  {
    var m := UpToRollback(policy, reports[..i]);
    var lo := if i + 1 - m <= policy.windowSize then m else i + 1 - policy.windowSize;
    Successes(reports[lo..i + 1])
  }

  lemma WindowAtIs(policy: RolloutPolicy, reports: seq<Report>, i: nat)
    requires i < |reports|
    ensures Window(policy, GuardAfter(policy, reports[..i]).outcomes, reports[i].success) ==
      WindowAt(policy, reports, i)
  {
    var m := UpToRollback(policy, reports[..i]);
    OutcomesSinceRollback(policy, reports[..i]);
    WindowIsLastSince(policy, reports[..i]);
    LastOfLast(policy.windowSize, Successes(reports[..i][m..]), reports[i].success);
    SuccessesMore(reports, m, i);
    LastSuccesses(reports[..i + 1], m, policy.windowSize);
    SliceTwice(reports, m, i + 1);
    SliceTwice(reports, if i + 1 - m <= policy.windowSize then m else i + 1 - policy.windowSize, i + 1);
  }

  lemma SliceTwice(reports: seq<Report>, lo: nat, hi: nat)
    requires lo <= hi <= |reports|
    ensures reports[..hi][lo..] == reports[lo..hi]
  {
  }

  /**
   * A report leads to a successful rollback exactly if it is a failure, rollback is enabled and possible,
   * the recent outcomes since the last rollback are alarming, and the vendor has cooled down.
   */
  lemma RollbackHappensIff(policy: RolloutPolicy, reports: seq<Report>, i: nat)
    requires i < |reports|
    ensures RolledBackAt(policy, reports, i) <==>
      && policy.enabled && !reports[i].success && reports[i].works
      && Alarming(policy, WindowAt(policy, reports, i))
      && reports[i].now - LastTime(policy, reports[..i], reports[i].vendor) >= policy.cooldown
  {
    WindowAtIs(policy, reports, i);
    BreachedIsAlarming(policy, WindowAt(policy, reports, i));
    LastTimeIsKept(policy, reports[..i], reports[i].vendor);
  }

  /** The samples that the rollbacks so far have used up. */
  function SamplesUsed(policy: RolloutPolicy, reports: seq<Report>): int {
    if reports == [] then 0
    else
      var n := |reports| - 1;
      SamplesUsed(policy, reports[..n]) + if RolledBackAt(policy, reports, n) then policy.minSamples else 0
  }

  lemma {:induction false} SamplesUsedPerRollback(policy: RolloutPolicy, reports: seq<Report>)
    ensures SamplesUsed(policy, reports) == Rollbacks(policy, reports) * policy.minSamples
  {
    if reports != [] {
      var n := |reports| - 1;
      SamplesUsedPerRollback(policy, reports[..n]);
      if RolledBackAt(policy, reports, n) {
        Successor(Rollbacks(policy, reports[..n]), policy.minSamples);
      }
    }
  }

  lemma Successor(k: int, m: int)
    ensures (k + 1) * m == k * m + m
  {
  }

  /** A rollback needs its samples, from among the outcomes since the last one. */
  lemma RollbackNeedsSamples(policy: RolloutPolicy, reports: seq<Report>, i: nat)
    requires i < |reports| && RolledBackAt(policy, reports, i)
    ensures policy.minSamples <= policy.windowSize
    ensures policy.minSamples <= |SinceRollback(policy, reports[..i])| + 1
  {
    RollbackHappensIff(policy, reports, i);
    OutcomesSinceRollback(policy, reports[..i]);
  }

  lemma {:induction false} OutcomesPayForRollbacks(policy: RolloutPolicy, reports: seq<Report>)
    requires policy.minSamples >= 1
    ensures SamplesUsed(policy, reports) + |SinceRollback(policy, reports)| <= |reports|
  {
    if reports != [] {
      var n := |reports| - 1;
      OutcomesPayForRollbacks(policy, reports[..n]);
      if RolledBackAt(policy, reports, n) {
        RollbackNeedsSamples(policy, reports, n);
      }
    }
  }

  /** Every successful rollback uses up `minSamples` outcomes; none happens if the window cannot hold them. */
  lemma RollbacksAreRare(policy: RolloutPolicy, reports: seq<Report>)
    requires policy.minSamples >= 1
    ensures Rollbacks(policy, reports) * policy.minSamples <= |reports|
    ensures policy.minSamples > policy.windowSize ==> Rollbacks(policy, reports) == 0
  {
    OutcomesPayForRollbacks(policy, reports);
    SamplesUsedPerRollback(policy, reports);
    if policy.minSamples > policy.windowSize {
      NeverEnoughSamples(policy, reports);
    }
  }

  lemma {:induction false} NeverEnoughSamples(policy: RolloutPolicy, reports: seq<Report>)
    requires policy.minSamples > policy.windowSize
    ensures Rollbacks(policy, reports) == 0
  {
    if reports != [] {
      var n := |reports| - 1;
      NeverEnoughSamples(policy, reports[..n]);
      if RolledBackAt(policy, reports, n) {
        RollbackNeedsSamples(policy, reports, n);
      }
    }
  }
}
