/** Properties of single sends: the retry contract, and what an accepted acknowledgement has shown. */
module TransportProofs {
  import opened Options
  import opened Ledger
  import opened CertPins
  import opened RollbackGuard
  import opened Tokens
  import opened Transport

  // ---------- The retry contract ----------

  predicate IsOutcome(event: CommandEvent) {
    event.status in {DuplicateSkip, AckOk, SendFailed}
  }

  /** The log without the entries of the rollout guard. */
  function Outcomes(events: seq<CommandEvent>): seq<CommandEvent> {
    if events == [] then []
    else
      var n := |events| - 1;
      Outcomes(events[..n]) + if IsOutcome(events[n]) then [events[n]] else []
  }

  lemma OutcomesAppend(events: seq<CommandEvent>, event: CommandEvent)
    ensures Outcomes(events + [event]) == Outcomes(events) + if IsOutcome(event) then [event] else []
  {
    assert (events + [event])[..|events|] == events;
  }

  /** Neither checks nor accounting touch the outcome log or the idempotency keys. */
  ghost predicate Quiet(b: Base, c: Base) {
    Outcomes(c.events) == Outcomes(b.events) && c.keys == b.keys
  }

  lemma GuardedIsQuiet(b: Base, report: Report, guard: Guard, asks: bool)
    ensures Quiet(b, AfterReport(b, report, guard, asks))
  {
    OutcomesAppend(b.events, GuardEvent(report.vendor, report.now, AutoRollback));
    OutcomesAppend(b.events, GuardEvent(report.vendor, report.now, AutoRollbackFailed));
  }

  lemma RecordingIsQuiet(cfg: Config, b: Base, success: bool, vendor: VendorField, now: real)
    ensures Quiet(b, RecordIfNamed(cfg, b, success, vendor, now))
  {
    if vendor.TextVendor? {
      var report := ReportOf(b, success, vendor.id, now);
      GuardedIsQuiet(b, report, Recorded(cfg.rollout, b.guard, report), Asks(cfg.rollout, b.guard, report));
    }
  }

  lemma OriginIsQuiet(cfg: Config, b: Base, ack: Ack, now: real)
    ensures Quiet(b, CheckOrigin(cfg, b, ack, now).0)
  {
    RecordingIsQuiet(cfg, if cfg.requireCertificate then CheckCertificate(b, ack, now).0 else b, true, ack.vendor, now);
  }

  lemma ValidationIsQuiet(cfg: Config, b: Base, e: Envelope, ack: Ack, now: real)
    ensures Quiet(b, ValidateAck(cfg, b, e, ack, now).0)
  {
    OriginIsQuiet(cfg, b, ack, now);
    if cfg.requireNonce && ack.nonce.Nonce? {
      OriginIsQuiet(cfg, b.(nonces := b.nonces[e.vehicle := ack.nonce.value]), ack, now);
    }
  }

  /** The keys after a completed command. */
  function KeysAfter(cfg: Config, keys: Keys, key: string, now: real): Keys {
    if cfg.deduplicate then keys[key := now + cfg.keyTtl] else keys
  }

  lemma AttemptContract(cfg: Config, b: Base, e: Envelope, attempt: Attempt)
    ensures var (next, ok) := TryOnce(cfg, b, e, attempt);
      if ok then
        && next.keys == KeysAfter(cfg, b.keys, e.key, attempt.now)
        && Outcomes(next.events) == Outcomes(b.events) +
             [CommandEvent(attempt.now, e.vehicle, e.commandId, e.key, AckOk)]
      else Quiet(b, next)
  {
    if attempt.reply.Replied? {
      var ack, start := attempt.reply.ack, WithToken(cfg, b);
      ValidationIsQuiet(cfg, start, e, ack, attempt.now);
      var checked := ValidateAck(cfg, start, e, ack, attempt.now).0;
      RecordingIsQuiet(cfg, checked, false, ack.vendor, attempt.now);
      OutcomesAppend(checked.events, CommandEvent(attempt.now, e.vehicle, e.commandId, e.key, AckOk));
    }
  }

  /** How a send that made attempts ends: one outcome entry, by the last attempt made. */
  ghost predicate Concluded(cfg: Config, b: Base, e: Envelope, script: seq<Attempt>, sent: Sent) {
    && 1 <= |sent.tries| <= |script|
    && (!sent.delivered ==> |sent.tries| == |script|)
    && var last := script[|sent.tries| - 1].now;
    && Outcomes(sent.base.events) == Outcomes(b.events)
         + [CommandEvent(last, e.vehicle, e.commandId, e.key, if sent.delivered then AckOk else SendFailed)]
    && sent.base.keys == if sent.delivered then KeysAfter(cfg, b.keys, e.key, last) else b.keys
  }

  lemma {:induction false} RetriesConclude(cfg: Config, b: Base, e: Envelope, k: nat, script: seq<Attempt>)
    requires script != []
    ensures Concluded(cfg, b, e, script, TryAll(cfg, b, e, k, script))
    decreases |script|
  {
    AttemptContract(cfg, b, e, script[0]);
    var (next, ok) := TryOnce(cfg, b, e, script[0]);
    if !ok && |script| == 1 {
      OutcomesAppend(next.events, CommandEvent(script[0].now, e.vehicle, e.commandId, e.key, SendFailed));
    } else if !ok {
      RetriesConclude(cfg, next, e, k + 1, script[1..]);
    }
  }

  /** The pauses between attempts, from the one that follows `k` others. */
  function Pauses(cfg: Config, k: nat, n: nat): real
    decreases n
  {
    if n == 0 then 0.0 else Delay(cfg, k) + Pauses(cfg, k + 1, n - 1)
  }

  lemma {:induction false} PausesDouble(cfg: Config, k: nat, n: nat)
    ensures Pauses(cfg, k, n) == cfg.backoff * (Pow2(k + n) - Pow2(k)) as real
    decreases n
  {
    if n > 0 {
      PausesDouble(cfg, k + 1, n - 1);
      SumOfDelays(cfg.backoff, Pow2(k), Pow2(k + n));
    }
  }

  lemma SumOfDelays(backoff: real, a: nat, c: nat)
    ensures backoff * a as real + backoff * (c - 2 * a) as real == backoff * (c - a) as real
  {
    assert (c - a) as real == a as real + (c - 2 * a) as real;
  }

  lemma {:induction false} RetriesPause(cfg: Config, b: Base, e: Envelope, k: nat, script: seq<Attempt>)
    requires script != []
    ensures var sent := TryAll(cfg, b, e, k, script);
      1 <= |sent.tries| && sent.slept == Pauses(cfg, k, |sent.tries| - 1)
    decreases |script|
  {
    var (next, ok) := TryOnce(cfg, b, e, script[0]);
    if !ok && |script| > 1 {
      RetriesPause(cfg, next, e, k + 1, script[1..]);
    }
  }

  lemma RetriesBackOff(cfg: Config, b: Base, e: Envelope, script: seq<Attempt>)
    requires script != []
    ensures var sent := TryAll(cfg, b, e, 0, script);
      1 <= |sent.tries| && sent.slept == cfg.backoff * (Pow2(|sent.tries| - 1) - 1) as real
  {
    RetriesPause(cfg, b, e, 0, script);
    PausesDouble(cfg, 0, |TryAll(cfg, b, e, 0, script).tries| - 1);
  }

  lemma OriginKeepsCounter(cfg: Config, b: Base, ack: Ack, now: real)
    ensures CheckOrigin(cfg, b, ack, now).0.requests == b.requests
  {
  }

  lemma ValidationKeepsCounter(cfg: Config, b: Base, e: Envelope, ack: Ack, now: real)
    ensures ValidateAck(cfg, b, e, ack, now).0.requests == b.requests
  {
    OriginKeepsCounter(cfg, b, ack, now);
    if ack.nonce.Nonce? {
      OriginKeepsCounter(cfg, b.(nonces := b.nonces[e.vehicle := ack.nonce.value]), ack, now);
    }
  }

  lemma ReceptionKeepsCounter(cfg: Config, b: Base, e: Envelope, ack: Ack, now: real)
    ensures Received(cfg, b, e, ack, now).0.requests == b.requests
  {
    ValidationKeepsCounter(cfg, b, e, ack, now);
  }

  lemma TryTakesAToken(cfg: Config, b: Base, e: Envelope, attempt: Attempt)
    requires Rotates(cfg.staticToken, NonEmpty(cfg.tokens))
    ensures TryOnce(cfg, b, e, attempt).0.requests == b.requests + if cfg.link == Mqtt(true) then 0 else 1
  {
    if attempt.reply.Replied? {
      ReceptionKeepsCounter(cfg, WithToken(cfg, b), e, attempt.reply.ack, attempt.now);
    }
  }

  /** Every try takes one token, unless the broker is down. */
  lemma {:induction false} EachTryTakesAToken(cfg: Config, b: Base, e: Envelope, k: nat, script: seq<Attempt>)
    requires Rotates(cfg.staticToken, NonEmpty(cfg.tokens))
    ensures var sent := TryAll(cfg, b, e, k, script);
      sent.base.requests == b.requests + if cfg.link == Mqtt(true) then 0 else |sent.tries|
    decreases |script|
  {
    if script != [] {
      TryTakesAToken(cfg, b, e, script[0]);
      EachTryTakesAToken(cfg, TryOnce(cfg, b, e, script[0]).0, e, k + 1, script[1..]);
    }
  }

  /** A duplicate is skipped without an attempt, and logged as such. */
  ghost predicate Skipped(cfg: Config, b: Base, e: Envelope, now: real, sent: Sent) {
    && sent.delivered && sent.tries == [] && sent.slept == 0.0
    && sent.base == Logged(PurgedBase(cfg, b, now), e, now, DuplicateSkip)
  }

  /** Without a permitted attempt the loop is left at once, normally and without a log entry. */
  ghost predicate Unattempted(cfg: Config, b: Base, now: real, sent: Sent) {
    sent.delivered && sent.tries == [] && sent.slept == 0.0 && sent.base == PurgedBase(cfg, b, now)
  }

  lemma DuplicateIsSkipped(cfg: Config, b: Base, e: Envelope, now: real, script: seq<Attempt>)
    requires cfg.deduplicate && Duplicate(b.keys, now, e.key)
    ensures Skipped(cfg, b, e, now, Send(cfg, b, e, now, script))
  {
  }

  lemma NothingIsAttempted(cfg: Config, b: Base, e: Envelope, now: real)
    requires !(cfg.deduplicate && Duplicate(b.keys, now, e.key))
    ensures Unattempted(cfg, b, now, Send(cfg, b, e, now, []))
  {
  }

  lemma SendRetries(cfg: Config, b: Base, e: Envelope, now: real, script: seq<Attempt>)
    requires !(cfg.deduplicate && Duplicate(b.keys, now, e.key))
    ensures Send(cfg, b, e, now, script) == TryAll(cfg, PurgedBase(cfg, b, now), e, 0, script)
  {
  }

  /** A send that made attempts: how it ends, and its exponential backoff in closed form. */
  ghost predicate Retried(cfg: Config, b: Base, e: Envelope, script: seq<Attempt>, sent: Sent) {
    && Concluded(cfg, b, e, script, sent)
    && sent.slept == cfg.backoff * (Pow2(|sent.tries| - 1) - 1) as real
  }

  lemma AttemptsContract(cfg: Config, b: Base, e: Envelope, script: seq<Attempt>)
    requires script != []
    ensures Retried(cfg, b, e, script, TryAll(cfg, b, e, 0, script))
  {
    RetriesConclude(cfg, b, e, 0, script);
    RetriesBackOff(cfg, b, e, script);
  }

  /**
   * The contract of a send: bounded tries; a normal return exactly for a duplicate or an acknowledged
   * command; the key marked exactly in the latter case; and exponential backoff in closed form.
   */
  lemma RetryContract(cfg: Config, b: Base, e: Envelope, now: real, script: seq<Attempt>)
    requires Fits(cfg, script)
    ensures var sent := Send(cfg, b, e, now, script);
      if cfg.deduplicate && Duplicate(b.keys, now, e.key) then Skipped(cfg, b, e, now, sent)
      else if cfg.maxAttempts < 1 then Unattempted(cfg, b, now, sent)
      else Retried(cfg, PurgedBase(cfg, b, now), e, script, sent)
  {
    if cfg.deduplicate && Duplicate(b.keys, now, e.key) {
      DuplicateIsSkipped(cfg, b, e, now, script);
    } else if cfg.maxAttempts < 1 {
      NothingIsAttempted(cfg, b, e, now);
    } else {
      SendRetries(cfg, b, e, now, script);
      AttemptsContract(cfg, PurgedBase(cfg, b, now), e, script);
    }
  }

  /**
   * A send logs exactly one outcome entry, under its own command id, if the command is a duplicate or the
   * configuration permits an attempt; only otherwise it logs none, and still returns normally.
   */
  lemma OneOutcomeIff(cfg: Config, b: Base, e: Envelope, now: real, script: seq<Attempt>)
    requires Fits(cfg, script)
    ensures var sent := Send(cfg, b, e, now, script);
      if (cfg.deduplicate && Duplicate(b.keys, now, e.key)) || cfg.maxAttempts >= 1
      then exists event ::
        && Outcomes(sent.base.events) == Outcomes(b.events) + [event]
        && event.commandId == e.commandId && event.subject == e.vehicle && event.key == e.key
        && (sent.delivered <==> event.status != SendFailed)
      else Outcomes(sent.base.events) == Outcomes(b.events) && sent.delivered
  {
    RetryContract(cfg, b, e, now, script);
    var sent := Send(cfg, b, e, now, script);
    if cfg.deduplicate && Duplicate(b.keys, now, e.key) {
      var event := CommandEvent(now, e.vehicle, e.commandId, e.key, DuplicateSkip);
      OutcomesAppend(b.events, event);
      assert Outcomes(sent.base.events) == Outcomes(b.events) + [event];
    } else if cfg.maxAttempts >= 1 {
      var event := CommandEvent(script[|sent.tries| - 1].now, e.vehicle, e.commandId, e.key,
                                if sent.delivered then AckOk else SendFailed);
      assert Outcomes(sent.base.events) == Outcomes(b.events) + [event];
    }
  }

  // ---------- What an accepted acknowledgement has shown ----------

  /** The nonce is new for the vehicle and within its window. */
  ghost predicate FreshNonce(cfg: Config, b: Base, vehicle: string, nonce: NonceField) {
    nonce.Nonce? &&
    (vehicle in b.nonces ==> b.nonces[vehicle] < nonce.value <= b.nonces[vehicle] + cfg.nonceWindow)
  }

  /** The certificate fingerprint is one the vendor's pinset admits at this moment. */
  ghost predicate Attested(b: Base, ack: Ack, now: real) {
    && Rendered(ack.vendor).Some? && ack.fingerprint.Some?
    && Admits(b.store, Rendered(ack.vendor).value, now, ack.fingerprint.value)
  }

  lemma OriginPassesIff(cfg: Config, b: Base, ack: Ack, now: real)
    ensures CheckOrigin(cfg, b, ack, now).1.None? <==>
      && (cfg.requireSignature ==> ack.signatureValid)
      && (cfg.requireCertificate ==> Attested(b, ack, now))
  {
  }

  ghost predicate Passes(cfg: Config, b: Base, e: Envelope, ack: Ack, now: real) {
    cfg.ackRequired ==>
      && ack.id == Some(e.commandId)
      && (cfg.requireNonce ==> FreshNonce(cfg, b, e.vehicle, ack.nonce))
      && (cfg.requireSignature ==> ack.signatureValid)
      && (cfg.requireCertificate ==> Attested(b, ack, now))
  }

  lemma ValidationPassesIff(cfg: Config, b: Base, e: Envelope, ack: Ack, now: real)
    ensures ValidateAck(cfg, b, e, ack, now).1.None? <==> Passes(cfg, b, e, ack, now)
  {
    OriginPassesIff(cfg, b, ack, now);
    if ack.nonce.Nonce? {
      OriginPassesIff(cfg, b.(nonces := b.nonces[e.vehicle := ack.nonce.value]), ack, now);
    }
  }

  /** An attempt succeeds exactly if it is answered by an acknowledgement that passes every required check. */
  lemma AttemptSucceedsIff(cfg: Config, b: Base, e: Envelope, attempt: Attempt)
    ensures TryOnce(cfg, b, e, attempt).1 <==>
      && cfg.link != Mqtt(true) && attempt.reply.Replied?
      && Passes(cfg, b, e, attempt.reply.ack, attempt.now)
  {
    if attempt.reply.Replied? {
      ValidationPassesIff(cfg, WithToken(cfg, b), e, attempt.reply.ack, attempt.now);
    }
  }

  // ---------- Why an acknowledgement is refused ----------

  /** What a refusal says of the acknowledgement is true. */
  ghost predicate Deserves(cfg: Config, b: Base, e: Envelope, ack: Ack, now: real, refusal: Refusal) {
    match refusal
    case WrongCommand => ack.id != Some(e.commandId)
    case NonceMissing => cfg.requireNonce && ack.nonce.NoNonce?
    case NonceInvalid => cfg.requireNonce && ack.nonce.BadNonce?
    case ReplayDetected =>
      cfg.requireNonce && ack.nonce.Nonce? && e.vehicle in b.nonces && ack.nonce.value <= b.nonces[e.vehicle]
    case NonceOutsideWindow =>
      cfg.requireNonce && ack.nonce.Nonce? && e.vehicle in b.nonces &&
      ack.nonce.value > b.nonces[e.vehicle] + cfg.nonceWindow
    case SignatureInvalid => cfg.requireSignature && !ack.signatureValid
    case VendorMissing => cfg.requireCertificate && ack.vendor.NoVendor?
    case FingerprintMissing => cfg.requireCertificate && ack.fingerprint.None?
    case CertificateRefused =>
      cfg.requireCertificate && !ack.vendor.NoVendor? && ack.fingerprint.Some? &&
      !Admits(b.store, VendorId(ack.vendor), now, ack.fingerprint.value)
  }

  /** The order of the checks. */
  function Turn(refusal: Refusal): nat {
    match refusal
    case WrongCommand => 0
    case NonceMissing => 1
    case NonceInvalid => 2
    case ReplayDetected => 3
    case NonceOutsideWindow => 4
    case SignatureInvalid => 5
    case VendorMissing => 6
    case FingerprintMissing => 7
    case CertificateRefused => 8
  }

  lemma OriginRefusalIsFirst(cfg: Config, b: Base, e: Envelope, ack: Ack, now: real)
    ensures var refusal := CheckOrigin(cfg, b, ack, now).1;
      if refusal.Some? then
        && Deserves(cfg, b, e, ack, now, refusal.value) && Turn(refusal.value) >= 5
        && forall other | 5 <= Turn(other) < Turn(refusal.value) :: !Deserves(cfg, b, e, ack, now, other)
      else forall other | Turn(other) >= 5 :: !Deserves(cfg, b, e, ack, now, other)
  {
  }

  /** A required acknowledgement is refused for the first thing that speaks against it, and only for such. */
  lemma RefusedForFirstReason(cfg: Config, b: Base, e: Envelope, ack: Ack, now: real)
    requires cfg.ackRequired
    ensures match ValidateAck(cfg, b, e, ack, now).1
      case Some(refusal) =>
        && Deserves(cfg, b, e, ack, now, refusal)
        && forall other | Turn(other) < Turn(refusal) :: !Deserves(cfg, b, e, ack, now, other)
      case None => forall other :: !Deserves(cfg, b, e, ack, now, other)
  {
    var next := if ack.nonce.Nonce? then b.(nonces := b.nonces[e.vehicle := ack.nonce.value]) else b;
    OriginRefusalIsFirst(cfg, b, e, ack, now);
    OriginRefusalIsFirst(cfg, next, e, ack, now);
    forall other | Turn(other) >= 5
      ensures Deserves(cfg, next, e, ack, now, other) <==> Deserves(cfg, b, e, ack, now, other)
    {
    }
  }

  // ---------- What an attempt leaves behind ----------

  /** The attempt is answered under its own command id, where that matters. */
  predicate Answered(cfg: Config, e: Envelope, attempt: Attempt) {
    cfg.link != Mqtt(true) && attempt.reply.Replied? && cfg.ackRequired && attempt.reply.ack.id == Some(e.commandId)
  }

  /** A new nonce is stored, whatever the later checks of the acknowledgement say; nothing else is. */
  lemma AttemptStoresNonceIff(cfg: Config, b: Base, e: Envelope, attempt: Attempt)
    ensures TryOnce(cfg, b, e, attempt).0.nonces ==
      if Answered(cfg, e, attempt) && cfg.requireNonce && FreshNonce(cfg, b, e.vehicle, attempt.reply.ack.nonce)
      then b.nonces[e.vehicle := attempt.reply.ack.nonce.value] else b.nonces
  {
    if attempt.reply.Replied? {
      ValidationStoresNonce(cfg, WithToken(cfg, b), e, attempt.reply.ack, attempt.now);
    }
  }

  lemma ValidationStoresNonce(cfg: Config, b: Base, e: Envelope, ack: Ack, now: real)
    ensures ValidateAck(cfg, b, e, ack, now).0.nonces ==
      if cfg.ackRequired && ack.id == Some(e.commandId) && cfg.requireNonce && FreshNonce(cfg, b, e.vehicle, ack.nonce)
      then b.nonces[e.vehicle := ack.nonce.value] else b.nonces
  {
  }

  /** The acknowledgement gets as far as the pinset of its vendor. */
  ghost predicate ChecksPins(cfg: Config, b: Base, e: Envelope, ack: Ack) {
    && cfg.ackRequired && ack.id == Some(e.commandId)
    && (cfg.requireNonce ==> FreshNonce(cfg, b, e.vehicle, ack.nonce))
    && (cfg.requireSignature ==> ack.signatureValid)
    && cfg.requireCertificate && !ack.vendor.NoVendor? && ack.fingerprint.Some?
  }

  function VendorId(vendor: VendorField): string {
    match vendor
    case NoVendor => ""
    case TextVendor(id) => id
    case OtherVendor(text) => text
  }

  /** The pinset after the acknowledgement was checked. */
  ghost function CheckedPins(cfg: Config, b: Base, e: Envelope, ack: Ack, now: real): Store {
    if ChecksPins(cfg, b, e, ack) then Apply(b.store, VendorId(ack.vendor), now, Check(ack.fingerprint.value))
    else b.store
  }

  lemma OriginChecksPins(cfg: Config, b: Base, ack: Ack, now: real)
    ensures CheckOrigin(cfg, b, ack, now).0.store ==
      if (cfg.requireSignature ==> ack.signatureValid) && cfg.requireCertificate && !ack.vendor.NoVendor? &&
         ack.fingerprint.Some?
      then Apply(b.store, VendorId(ack.vendor), now, Check(ack.fingerprint.value)) else b.store
    ensures CheckOrigin(cfg, b, ack, now).1.Some? ==> CheckOrigin(cfg, b, ack, now).0.guard == b.guard
  {
  }

  lemma ValidationChecksPins(cfg: Config, b: Base, e: Envelope, ack: Ack, now: real)
    ensures ValidateAck(cfg, b, e, ack, now).0.store == CheckedPins(cfg, b, e, ack, now)
    ensures ValidateAck(cfg, b, e, ack, now).1.Some? ==> ValidateAck(cfg, b, e, ack, now).0.guard == b.guard
  {
    if cfg.ackRequired && !cfg.requireNonce {
      OriginChecksPins(cfg, b, ack, now);
    } else if cfg.ackRequired && ack.nonce.Nonce? {
      OriginChecksPins(cfg, b.(nonces := b.nonces[e.vehicle := ack.nonce.value]), ack, now);
    }
  }

  /** The attempt is answered, refused, and asks for a rollback of the vendor that the answer names. */
  ghost predicate AsksForRollback(cfg: Config, b: Base, e: Envelope, attempt: Attempt) {
    && cfg.link != Mqtt(true) && attempt.reply.Replied? && attempt.reply.ack.vendor.TextVendor?
    && !Passes(cfg, b, e, attempt.reply.ack, attempt.now)
    && Asks(cfg.rollout, b.guard, Report(false, attempt.reply.ack.vendor.id, attempt.now, false))
  }

  /**
   * What an attempt does to the pinset: a check, if the acknowledgement gets that far, and then a rollback,
   * if it asks for one; nothing else.
   */
  lemma AttemptChangesPins(cfg: Config, b: Base, e: Envelope, attempt: Attempt)
    ensures TryOnce(cfg, b, e, attempt).0.store ==
      if cfg.link == Mqtt(true) || attempt.reply.WireFailed? then b.store
      else
        var checked := CheckedPins(cfg, b, e, attempt.reply.ack, attempt.now);
        if AsksForRollback(cfg, b, e, attempt)
        then Apply(checked, attempt.reply.ack.vendor.id, attempt.now, Rollback) else checked
  {
    if cfg.link != Mqtt(true) && attempt.reply.Replied? {
      var ack, start := attempt.reply.ack, WithToken(cfg, b);
      ValidationChecksPins(cfg, start, e, ack, attempt.now);
      ValidationPassesIff(cfg, start, e, ack, attempt.now);
      ReceptionChangesPins(cfg, start, e, ack, attempt.now);
    }
  }

  lemma ReceptionChangesPins(cfg: Config, b: Base, e: Envelope, ack: Ack, now: real)
    ensures var (checked, refusal) := ValidateAck(cfg, b, e, ack, now);
      Received(cfg, b, e, ack, now).0.store ==
        if refusal.Some? && ack.vendor.TextVendor? &&
           Asks(cfg.rollout, checked.guard, Report(false, ack.vendor.id, now, false))
        then Apply(checked.store, ack.vendor.id, now, Rollback) else checked.store
  {
    var checked := ValidateAck(cfg, b, e, ack, now).0;
    if ack.vendor.TextVendor? {
      assert Asks(cfg.rollout, checked.guard, ReportOf(checked, false, ack.vendor.id, now)) ==
             Asks(cfg.rollout, checked.guard, Report(false, ack.vendor.id, now, false));
    }
  }
}
