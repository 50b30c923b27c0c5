/** Command transport: acknowledgement checks, outcome accounting, and the retry loop shared by HTTP and MQTT. */
module Transport {
  import opened Options
  import opened Ledger
  import opened CertPins
  import opened RollbackGuard
  import opened Tokens

  datatype Link = Http | Mqtt(brokerDown: bool)

  datatype Config = Config(
    link: Link,
    maxAttempts: int,
    backoff: real,
    ackRequired: bool,
    requireNonce: bool,
    nonceWindow: int,
    requireSignature: bool,
    requireCertificate: bool,
    rollout: RolloutPolicy,
    deduplicate: bool,
    keyTtl: real,
    staticToken: Option<string>,
    tokens: seq<string>,
    rotateEvery: int)

  datatype Envelope = Envelope(vehicle: string, commandId: string, key: string)

  datatype NonceField = NoNonce | BadNonce | Nonce(value: int)

  /** Only a textual vendor id enters the outcome accounting; the certificate check renders any id as text. */
  datatype VendorField = NoVendor | TextVendor(id: string) | OtherVendor(rendered: string)

  datatype Ack = Ack(
    id: Option<string>, nonce: NonceField, signatureValid: bool, vendor: VendorField, fingerprint: Option<string>)

  /** What one attempt meets: the instant it is handled, and a failed exchange or an acknowledgement. */
  datatype Reply = WireFailed | Replied(ack: Ack)
  datatype Attempt = Attempt(now: real, reply: Reply)

  datatype Refusal =
    | WrongCommand
    | NonceMissing
    | NonceInvalid
    | ReplayDetected
    | NonceOutsideWindow
    | SignatureInvalid
    | VendorMissing
    | FingerprintMissing
    | CertificateRefused

  /** Everything a transport remembers between calls. */
  datatype Base = Base(
    keys: Keys,
    nonces: map<string, int>,
    events: seq<CommandEvent>,
    store: Store,
    guard: Guard,
    requests: nat)

  function CheckNonce(cfg: Config, nonces: map<string, int>, vehicle: string, nonce: NonceField): Option<Refusal> {
    match nonce
    case NoNonce => Some(NonceMissing)
    case BadNonce => Some(NonceInvalid)
    case Nonce(n) =>
      if vehicle in nonces && n <= nonces[vehicle] then Some(ReplayDetected)
      else if vehicle in nonces && n > nonces[vehicle] + cfg.nonceWindow then Some(NonceOutsideWindow)
      else None
  }

  function Rendered(vendor: VendorField): Option<string> {
    match vendor
    case NoVendor => None
    case TextVendor(id) => Some(id)
    case OtherVendor(text) => Some(text)
  }

  function CheckCertificate(b: Base, ack: Ack, now: real): (Base, Option<Refusal>) {
    match Rendered(ack.vendor)
    case None => (b, Some(VendorMissing))
    case Some(id) =>
      match ack.fingerprint
      case None => (b, Some(FingerprintMissing))
      case Some(fingerprint) =>
        (b.(store := Apply(b.store, id, now, Check(fingerprint))),
         if Admits(b.store, id, now, fingerprint) then None else Some(CertificateRefused))
  }

  function ReportOf(b: Base, success: bool, vendor: string, now: real): Report {
    Report(success, vendor, now, vendor in b.store && b.store[vendor].previous != [])
  }

  function GuardEvent(vendor: string, now: real, status: Status): CommandEvent {
    CommandEvent(now, "vendor:" + vendor, "rollout_guard", "rollout_guard", status)
  }

  /** The state after a report that leaves this guard, and may ask for a rollback. */
  function AfterReport(b: Base, report: Report, guard: Guard, asks: bool): Base {
    if asks then
      var status := if report.works then AutoRollback else AutoRollbackFailed;
      b.(guard := guard,
         store := Apply(b.store, report.vendor, report.now, Rollback),
         events := b.events + [GuardEvent(report.vendor, report.now, status)])
    else b.(guard := guard)
  }

  /** Records one outcome and performs the rollback it may ask for. */
  function RecordOutcome(cfg: Config, b: Base, success: bool, vendor: string, now: real): Base {
    var report := ReportOf(b, success, vendor, now);
    AfterReport(b, report, Recorded(cfg.rollout, b.guard, report), Asks(cfg.rollout, b.guard, report))
  }

  function RecordIfNamed(cfg: Config, b: Base, success: bool, vendor: VendorField, now: real): Base {
    if vendor.TextVendor? then RecordOutcome(cfg, b, success, vendor.id, now) else b
  }

  /** The checks after the nonce: signature, certificate, and the record of a success. */
  function CheckOrigin(cfg: Config, b: Base, ack: Ack, now: real): (Base, Option<Refusal>) {
    if cfg.requireSignature && !ack.signatureValid then (b, Some(SignatureInvalid))
    else
      var (checked, refusal) := if cfg.requireCertificate then CheckCertificate(b, ack, now) else (b, None);
      if refusal.Some? then (checked, refusal)
      else (RecordIfNamed(cfg, checked, true, ack.vendor, now), None)
  }

  /** An accepted nonce is stored before the remaining checks, which may still refuse the acknowledgement. */
  function ValidateAck(cfg: Config, b: Base, e: Envelope, ack: Ack, now: real): (Base, Option<Refusal>) {
    if !cfg.ackRequired then (b, None)
    else if ack.id != Some(e.commandId) then (b, Some(WrongCommand))
    else if !cfg.requireNonce then CheckOrigin(cfg, b, ack, now)
    else
      var refusal := CheckNonce(cfg, b.nonces, e.vehicle, ack.nonce);
      if refusal.Some? then (b, refusal)
      else CheckOrigin(cfg, b.(nonces := b.nonces[e.vehicle := ack.nonce.value]), ack, now)
  }

  function Logged(b: Base, e: Envelope, now: real, status: Status): Base {
    b.(events := b.events + [CommandEvent(now, e.vehicle, e.commandId, e.key, status)])
  }

  function Completed(cfg: Config, b: Base, e: Envelope, now: real): Base {
    Logged(if cfg.deduplicate then b.(keys := b.keys[e.key := now + cfg.keyTtl]) else b, e, now, AckOk)
  }

  /** A validated acknowledgement completes the command; a refused one is recorded as a failure. */
  function Received(cfg: Config, b: Base, e: Envelope, ack: Ack, now: real): (Base, bool) {
    var (checked, refusal) := ValidateAck(cfg, b, e, ack, now);
    if refusal.None? then (Completed(cfg, checked, e, now), true)
    else (RecordIfNamed(cfg, checked, false, ack.vendor, now), false)
  }

  function WithToken(cfg: Config, b: Base): Base {
    b.(requests := b.requests + if Rotates(cfg.staticToken, NonEmpty(cfg.tokens)) then 1 else 0)
  }

  function TryOnce(cfg: Config, b: Base, e: Envelope, attempt: Attempt): (Base, bool) {
    if cfg.link == Mqtt(true) then (b, false)
    else match attempt.reply
    case WireFailed => (WithToken(cfg, b), false)
    case Replied(ack) => Received(cfg, WithToken(cfg, b), e, ack, attempt.now)
  }

  function Pow2(n: nat): nat {
    if n == 0 then 1 else 2 * Pow2(n - 1)
  }

  /** The pause after the attempt that follows `k` others. */
  function Delay(cfg: Config, k: nat): real {
    cfg.backoff * Pow2(k) as real
  }

  /** One attempt of a run of the loop, with the state it met, what it left, and whether it succeeded. */
  datatype Tried = Tried(before: Base, envelope: Envelope, attempt: Attempt, after: Base, ok: bool)

  datatype Sent = Sent(base: Base, delivered: bool, tries: seq<Tried>, slept: real)

  /** The loop with `k` attempts behind it and one attempt ahead for each entry of the script. */
  function TryAll(cfg: Config, b: Base, e: Envelope, k: nat, script: seq<Attempt>): Sent
    decreases |script|
  {
    if script == [] then Sent(b, true, [], 0.0)
    else
      var (next, ok) := TryOnce(cfg, b, e, script[0]);
      var tried := [Tried(b, e, script[0], next, ok)];
      if ok then Sent(next, true, tried, 0.0)
      else if |script| == 1 then Sent(Logged(next, e, script[0].now, SendFailed), false, tried, 0.0)
      else
        var rest := TryAll(cfg, next, e, k + 1, script[1..]);
        Sent(rest.base, rest.delivered, tried + rest.tries, Delay(cfg, k) + rest.slept)
  }

  predicate Fits(cfg: Config, script: seq<Attempt>) {
    |script| == if cfg.maxAttempts < 0 then 0 else cfg.maxAttempts
  }

  function PurgedBase(cfg: Config, b: Base, now: real): Base {
    if cfg.deduplicate then b.(keys := Purged(b.keys, now)) else b
  }

  function Send(cfg: Config, b: Base, e: Envelope, now: real, script: seq<Attempt>): Sent {
    if cfg.deduplicate && Duplicate(b.keys, now, e.key)
    then Sent(Logged(PurgedBase(cfg, b, now), e, now, DuplicateSkip), true, [], 0.0)
    else TryAll(cfg, PurgedBase(cfg, b, now), e, 0, script)
  }

  class CommandTransport {
    const cfg: Config
    const ledger: CommandLedger
    const pins: VendorCertPinset
    const tokens: RotatingTokenProvider
    var outcomes: seq<bool>
    var lastRollback: map<string, real>

    ghost predicate Valid()
      reads this
    {
      && tokens.period >= 1
      && tokens.staticToken == cfg.staticToken && tokens.tokens == NonEmpty(cfg.tokens)
    }

    ghost function View(): Base
      reads this, ledger, pins, tokens
    {
      Base(ledger.keys, ledger.nonces, ledger.events, pins.vendors, Guard(outcomes, lastRollback), tokens.requests)
    }

    /** A new transport on a durable ledger, with the pinset it loads. */
    constructor (cfg: Config, ledger: CommandLedger, file: Option<Store>)
      ensures Valid() && this.cfg == cfg && this.ledger == ledger
      ensures fresh(pins) && fresh(tokens)
      ensures View() == Base(ledger.keys, ledger.nonces, ledger.events,
                             if file.Some? then file.value else map[], NEW_GUARD, 0)
    {
      this.cfg, this.ledger := cfg, ledger;
      pins := new VendorCertPinset(file);
      tokens := new RotatingTokenProvider(cfg.staticToken, cfg.tokens, cfg.rotateEvery);
      outcomes, lastRollback := [], map[];
    }

    method LogEvent(e: Envelope, now: real, status: Status)
      modifies ledger
      ensures View() == Logged(old(View()), e, now, status)
    {
      ledger.AppendCommandEvent(CommandEvent(now, e.vehicle, e.commandId, e.key, status));
    }

    method RecordAckVerificationResult(success: bool, vendor: string, now: real)
      modifies this, ledger, pins
      ensures View() == RecordOutcome(cfg, old(View()), success, vendor, now)
    {
      outcomes := Last(cfg.rollout.windowSize, outcomes + [success]);
      if success || !cfg.rollout.enabled {
        return;
      }
      var samples := |outcomes|;
      if samples < cfg.rollout.minSamples {
        return;
      }
      var failures := CountFailures(outcomes);
      if failures as real / samples as real < cfg.rollout.threshold {
        return;
      }
      var last := if vendor in lastRollback then lastRollback[vendor] else 0.0;
      if now - last < cfg.rollout.cooldown {
        return;
      }
      var verdict := pins.RollbackToPreviousActive(vendor);
      if verdict.Allowed? {
        lastRollback := lastRollback[vendor := now];
        outcomes := [];
        ledger.AppendCommandEvent(GuardEvent(vendor, now, AutoRollback));
      } else {
        ledger.AppendCommandEvent(GuardEvent(vendor, now, AutoRollbackFailed));
      }
    }

    static method CountFailures(outcomes: seq<bool>) returns (failures: nat)
      ensures failures == Failures(outcomes)
    {
      failures := 0;
      for i := 0 to |outcomes|
        invariant failures == Failures(outcomes[..i])
      {
        assert outcomes[..i + 1][..i] == outcomes[..i];
        if !outcomes[i] {
          failures := failures + 1;
        }
      }
      assert outcomes[..|outcomes|] == outcomes;
    }

    method ValidateCertBinding(ack: Ack, now: real) returns (refusal: Option<Refusal>)
      modifies pins
      ensures (View(), refusal) == CheckCertificate(old(View()), ack, now)
    {
      var vendor := Rendered(ack.vendor);
      if vendor.None? {
        return Some(VendorMissing);
      }
      if ack.fingerprint.None? {
        return Some(FingerprintMissing);
      }
      var verdict := pins.AssertVendorFingerprintAllowed(vendor.value, ack.fingerprint.value, now);
      refusal := if verdict.Allowed? then None else Some(CertificateRefused);
    }

    method ValidateNonce(vehicle: string, nonce: NonceField) returns (refusal: Option<Refusal>)
      modifies ledger
      ensures refusal == CheckNonce(cfg, old(ledger.nonces), vehicle, nonce)
      ensures View() == if refusal.Some? then old(View())
                        else old(View()).(nonces := old(ledger.nonces)[vehicle := nonce.value])
    {
      if !nonce.Nonce? {
        return if nonce.NoNonce? then Some(NonceMissing) else Some(NonceInvalid);
      }
      var last := ledger.GetLastAckNonce(vehicle);
      if last.Some? && nonce.value <= last.value {
        return Some(ReplayDetected);
      }
      if last.Some? && nonce.value > last.value + cfg.nonceWindow {
        return Some(NonceOutsideWindow);
      }
      ledger.UpdateLastAckNonce(vehicle, nonce.value);
      refusal := None;
    }

    method ValidateOrigin(ack: Ack, now: real) returns (refusal: Option<Refusal>)
      modifies this, ledger, pins
      ensures (View(), refusal) == CheckOrigin(cfg, old(View()), ack, now)
    {
      if cfg.requireSignature && !ack.signatureValid {
        return Some(SignatureInvalid);
      }
      refusal := None;
      if cfg.requireCertificate {
        refusal := ValidateCertBinding(ack, now);
      }
      if refusal.None? && ack.vendor.TextVendor? {
        RecordAckVerificationResult(true, ack.vendor.id, now);
      }
    }

    method ValidateAcknowledgement(e: Envelope, ack: Ack, now: real) returns (refusal: Option<Refusal>)
      modifies this, ledger, pins
      ensures (View(), refusal) == ValidateAck(cfg, old(View()), e, ack, now)
    {
      if !cfg.ackRequired {
        return None;
      }
      if ack.id != Some(e.commandId) {
        return Some(WrongCommand);
      }
      if cfg.requireNonce {
        refusal := ValidateNonce(e.vehicle, ack.nonce);
        if refusal.Some? {
          return;
        }
      }
      refusal := ValidateOrigin(ack, now);
    }

    method ReceiveAck(e: Envelope, ack: Ack, now: real) returns (ok: bool)
      modifies this, ledger, pins
      ensures (View(), ok) == Received(cfg, old(View()), e, ack, now)
    {
      var refusal := ValidateAcknowledgement(e, ack, now);
      ok := refusal.None?;
      if ok {
        if cfg.deduplicate {
          ledger.MarkIdempotencyKey(e.key, cfg.keyTtl, now);
        }
        LogEvent(e, now, AckOk);
      } else if ack.vendor.TextVendor? {
        RecordAckVerificationResult(false, ack.vendor.id, now);
      }
    }

    method AttemptOnce(e: Envelope, attempt: Attempt) returns (ok: bool)
      requires Valid()
      modifies this, ledger, pins, tokens
      ensures Valid() && (View(), ok) == TryOnce(cfg, old(View()), e, attempt)
    {
      if cfg.link == Mqtt(true) {
        return false;
      }
      var token := tokens.NextToken();
      match attempt.reply {
        case WireFailed => ok := false;
        case Replied(ack) => ok := ReceiveAck(e, ack, attempt.now);
      }
    }

    /** `delivered` is a normal return, its absence the transport's error; `slept` adds up the backoff delays. */
    method SendCommand(e: Envelope, now: real, script: seq<Attempt>) returns (delivered: bool, slept: real)
      requires Valid() && Fits(cfg, script)
      modifies this, ledger, pins, tokens
      ensures Valid()
      ensures var sent := Send(cfg, old(View()), e, now, script);
        View() == sent.base && delivered == sent.delivered && slept == sent.slept
    {
      slept := 0.0;
      if cfg.deduplicate {
        var duplicate := ledger.IsDuplicateIdempotencyKey(e.key, now);
        if duplicate {
          LogEvent(e, now, DuplicateSkip);
          return true, 0.0;
        }
      }
      delivered, slept := RetryLoop(e, script);
    }

    method RetryLoop(e: Envelope, script: seq<Attempt>) returns (delivered: bool, slept: real)
      requires Valid()
      modifies this, ledger, pins, tokens
      ensures Valid()
      ensures var sent := TryAll(cfg, old(View()), e, 0, script);
        View() == sent.base && delivered == sent.delivered && slept == sent.slept
    {
      slept := 0.0;
      var attempt := 1;
      ghost var sent := TryAll(cfg, View(), e, 0, script);
      assert script[0..] == script;
      while attempt <= |script|
        invariant Valid() && 1 <= attempt <= |script| + 1
        invariant Continues(sent, TryAll(cfg, View(), e, attempt - 1, script[attempt - 1..]), slept)
      {
        var current := script[attempt - 1];
        ghost var (next, ok') := TryOnce(cfg, View(), e, current);
        TryUnfolds(cfg, View(), e, attempt - 1, script, next, ok');
        var ok := AttemptOnce(e, current);
        if ok {
          return true, slept;
        }
        if attempt >= |script| {
          LogEvent(e, current.now, SendFailed);
          return false, slept;
        }
        slept := slept + Delay(cfg, attempt - 1);
        attempt := attempt + 1;
      }
      delivered := true;
    }
  }

  /** What is left of the loop completes what it has already done. */
  ghost predicate Continues(sent: Sent, rest: Sent, slept: real) {
    sent.base == rest.base && sent.delivered == rest.delivered && sent.slept == slept + rest.slept
  }

  lemma TryUnfolds(cfg: Config, b: Base, e: Envelope, k: nat, script: seq<Attempt>, next: Base, ok: bool)
    requires k < |script| && (next, ok) == TryOnce(cfg, b, e, script[k])
    ensures var all := TryAll(cfg, b, e, k, script[k..]);
      if ok then all.base == next && all.delivered && all.slept == 0.0
      else if k + 1 == |script| then
        all.base == Logged(next, e, script[k].now, SendFailed) && !all.delivered && all.slept == 0.0
      else Continues(all, TryAll(cfg, next, e, k + 1, script[k + 1..]), Delay(cfg, k))
  {
    assert script[k..][0] == script[k] && script[k..][1..] == script[k + 1..];
  }
}
