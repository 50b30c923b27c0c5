/** Signed update bundles: quorum, newer versions, canary stage, approvals, and the one-shot global gate. */
module BundleUpdater {
  import opened Options
  import opened ApprovalAudit

  /** The JSON object of a target file, opaque here. */
  type Document = string

  datatype Gate = Gate(required: bool, source: Option<string>, soak: Option<real>, errorRate: Option<real>)

  /** `other` stands for the fields nothing depends on; they are still signed and hashed. */
  datatype Metadata = Metadata(
    environment: Option<string>, version: Option<int>, stage: Option<string>, gate: Option<Gate>, other: string)

  datatype Payload = Payload(keyring: Option<Document>, pinset: Option<Document>, rolloutPolicy: Option<Document>)

  datatype Signature = Signature(algorithm: string, kid: Option<string>, value: Option<string>)

  datatype Bundle = Bundle(metadata: Option<Metadata>, payload: Option<Payload>, signatures: seq<Signature>)

  datatype KeyDescriptor = KeyDescriptor(algorithm: string, publicKey: Option<string>)

  datatype EnvironmentConfig = EnvironmentConfig(
    minSignatures: Option<int>, requireCanary: bool, minSoak: real, maxErrorRate: real, minApprovers: Option<int>)

  datatype TrustStore = TrustStore(
    keys: map<string, KeyDescriptor>, minSignatures: Option<int>, environments: map<string, EnvironmentConfig>)

  datatype EnvironmentPolicy = EnvironmentPolicy(
    minSignatures: int, requireCanary: bool, minSoak: real, maxErrorRate: real, minApprovers: int)

  /**
   * The cryptography: whether a signature value verifies under a key; the canonical text of a bundle;
   * and a hash of texts. The hash is not assumed injective.
   */
  datatype Crypto = Crypto(
    verifies: (KeyDescriptor, string, Metadata, Payload) -> bool,
    canonical: (Metadata, Payload, seq<Signature>) -> string,
    sha: string -> string)

  function AtLeastOne(value: Option<int>, default: int): int {
    var chosen := if value.Some? then value.value else default;
    if chosen < 1 then 1 else chosen
  }

  function PolicyFor(trust: TrustStore, environment: string): EnvironmentPolicy {
    var c := if environment in trust.environments then trust.environments[environment]
             else EnvironmentConfig(None, false, 0.0, 1.0, None);
    EnvironmentPolicy(
      AtLeastOne(c.minSignatures, AtLeastOne(trust.minSignatures, 1)),
      c.requireCanary, c.minSoak, c.maxErrorRate, AtLeastOne(c.minApprovers, 1))
  }

  function LowerChar(c: char): char {
    if 'A' <= c <= 'Z' then (c as int + 32) as char else c
  }

  function Lower(s: string): string {
    seq(|s|, i requires 0 <= i < |s| => LowerChar(s[i]))
  }

  function TextOr(value: Option<string>, default: string): string {
    if value.Some? then value.value else default
  }

  /** The signature names a known key, both say ed25519, and its value verifies. */
  predicate ValidSignature(crypto: Crypto, trust: TrustStore, m: Metadata, p: Payload, s: Signature) {
    && Lower(s.algorithm) == "ed25519" && s.kid.Some? && s.value.Some?
    && s.kid.value in trust.keys
    && var key := trust.keys[s.kid.value];
       Lower(key.algorithm) == "ed25519" && key.publicKey.Some? && crypto.verifies(key, s.value.value, m, p)
  }

  /** The key ids with some valid signature, each once. */
  function ValidKids(crypto: Crypto, trust: TrustStore, m: Metadata, p: Payload, signatures: seq<Signature>)
    : set<string>
  {
    set s | s in signatures && ValidSignature(crypto, trust, m, p, s) :: s.kid.value
  }

  datatype Approval = Approval(bundleHash: string, approver: string, reason: string, approvedAt: real)

  datatype EnvironmentState = EnvironmentState(
    lastCanary: string, approved: string, approvedAt: Option<real>, lastCanaryAt: Option<real>,
    approvedBy: set<string>, pending: seq<Approval>)

  const NEW_ENVIRONMENT := EnvironmentState("", "", None, None, {}, [])

  datatype State = State(
    lastVersion: int, lastBundleHash: string, chainHash: string, environments: map<string, EnvironmentState>)

  const NEW_STATE := State(0, "", "", map[])

  datatype Files = Files(
    keyring: Option<Document>, pinset: Option<Document>, rolloutPolicy: Option<Document>,
    canaryKeyring: Option<Document>, canaryPinset: Option<Document>)

  const NO_FILES := Files(None, None, None, None, None)

  function EnvironmentOf(state: State, environment: string): EnvironmentState {
    if environment in state.environments then state.environments[environment] else NEW_ENVIRONMENT
  }

  datatype ApplyError =
    | InvalidStructure
    | VersionInvalid
    | VersionNotNewer
    | TrustStoreMissing
    | QuorumNotSatisfied
    | SourceHashMissing
    | CanaryNotApproved
    | MetricsMissing
    | SoakTooShort
    | ErrorRateTooHigh
    | UnsupportedStage

  /** The first reason why the canary gate stays closed. */
  function GateError(gate: Option<Gate>, env: EnvironmentState, policy: EnvironmentPolicy): Option<ApplyError> {
    var g := if gate.Some? then gate.value else Gate(false, None, None, None);
    if !g.required && !policy.requireCanary then None
    else if g.source.None? || g.source.value == "" then Some(SourceHashMissing)
    else if env.approved != g.source.value then Some(CanaryNotApproved)
    else if policy.minSoak > 0.0 || policy.maxErrorRate < 1.0 then
      if g.soak.None? || g.errorRate.None? then Some(MetricsMissing)
      else if g.soak.value < policy.minSoak then Some(SoakTooShort)
      else if g.errorRate.value > policy.maxErrorRate then Some(ErrorRateTooHigh)
      else None
    else None
  }

  datatype Stage = Canary | Global

  datatype Verdict = Refused(error: ApplyError) | Cleared(stage: Stage, environment: string, version: int, hash: string)

  function StructureError(state: State, trust: Option<TrustStore>, b: Bundle): Option<ApplyError> {
    if b.metadata.None? || b.payload.None? || b.signatures == [] then Some(InvalidStructure)
    else if b.metadata.value.version.None? then Some(VersionInvalid)
    else if b.metadata.value.version.value <= state.lastVersion then Some(VersionNotNewer)
    else if trust.None? then Some(TrustStoreMissing)
    else None
  }

  function BundleHash(crypto: Crypto, b: Bundle): string
    requires b.metadata.Some? && b.payload.Some?
  {
    crypto.sha(crypto.canonical(b.metadata.value, b.payload.value, b.signatures))
  }

  function Judge(crypto: Crypto, trust: Option<TrustStore>, state: State, b: Bundle): Verdict {
    var malformed := StructureError(state, trust, b);
    if malformed.Some? then Refused(malformed.value)
    else
      var m, environment := b.metadata.value, Lower(TextOr(b.metadata.value.environment, "dev"));
      var policy := PolicyFor(trust.value, environment);
      if |ValidKids(crypto, trust.value, m, b.payload.value, b.signatures)| < policy.minSignatures then
        Refused(QuorumNotSatisfied)
      else
        var stage := Lower(TextOr(m.stage, "global"));
        if stage == "canary" then Cleared(Canary, environment, m.version.value, BundleHash(crypto, b))
        else if stage == "global" then
          match GateError(m.gate, EnvironmentOf(state, environment), policy)
          case Some(error) => Refused(error)
          case None => Cleared(Global, environment, m.version.value, BundleHash(crypto, b))
        else Refused(UnsupportedStage)
  }

  function Replaced(file: Option<Document>, new_: Option<Document>): Option<Document> {
    if new_.Some? then new_ else file
  }

  function WriteFiles(files: Files, p: Payload, stage: Stage): Files {
    match stage
    case Canary =>
      files.(canaryKeyring := Replaced(files.canaryKeyring, p.keyring),
             canaryPinset := Replaced(files.canaryPinset, p.pinset))
    case Global =>
      files.(keyring := Replaced(files.keyring, p.keyring), pinset := Replaced(files.pinset, p.pinset),
             rolloutPolicy := Replaced(files.rolloutPolicy, p.rolloutPolicy))
  }

  function ChainWith(crypto: Crypto, chain: string, hash: string): string {
    crypto.sha(chain + ":" + hash)
  }

  function UpdatedEnvironment(env: EnvironmentState, stage: Stage, hash: string, now: real): EnvironmentState {
    match stage
    case Canary => env.(lastCanary := hash, lastCanaryAt := Some(now))
    case Global => env.(approved := "", approvedAt := None, approvedBy := {})
  }

  function UpdatedState(crypto: Crypto, state: State, v: Verdict, now: real): State
    requires v.Cleared?
  {
    State(v.version, v.hash, ChainWith(crypto, state.chainHash, v.hash),
          state.environments[v.environment :=
            UpdatedEnvironment(EnvironmentOf(state, v.environment), v.stage, v.hash, now)])
  }

  datatype ApprovalResult =
    | NoCandidate
    | NoTrustStore
    | AlreadyApproved
    | Noted(status: ApprovalStatus, required: int, approvers: set<string>)
    | AuditFailed

  /** The approvals for one bundle. */
  function For(pending: seq<Approval>, hash: string): seq<Approval> {
    if pending == [] then []
    else
      var n := |pending| - 1;
      For(pending[..n], hash) + if pending[n].bundleHash == hash then [pending[n]] else []
  }

  function Except(pending: seq<Approval>, hash: string): seq<Approval> {
    if pending == [] then []
    else
      var n := |pending| - 1;
      Except(pending[..n], hash) + if pending[n].bundleHash == hash then [] else [pending[n]]
  }

  function Approvers(approvals: seq<Approval>): set<string> {
    set a | a in approvals :: a.approver
  }

  /** What approving would note, before the audit log has its say. */
  datatype Ballot = Ballot(candidate: string, status: ApprovalStatus, required: int, approvers: set<string>,
                           environment: EnvironmentState)

  function CandidateFor(env: EnvironmentState, hash: Option<string>): string {
    if hash.Some? && hash.value != "" then hash.value else env.lastCanary
  }

  function Vote(env: EnvironmentState, required: int, candidate: string, approver: string, reason: string, now: real)
    : Ballot
  {
    var pending := env.pending + [Approval(candidate, approver, reason, now)];
    var approvers := Approvers(For(pending, candidate)) - {""};
    if |approvers| >= required then
      Ballot(candidate, Approved, required, approvers,
             env.(approved := candidate, approvedAt := Some(now), approvedBy := approvers,
                  pending := Except(pending, candidate)))
    else Ballot(candidate, ApprovalStatus.Pending, required, approvers, env.(pending := pending))
  }

  /** Everything the updater persists: its state file, its target files, and the approval log. */
  datatype Sys = Sys(state: State, files: Files, audit: AuditState)

  /** What an updater is set up with for good. */
  datatype Setup = Setup(crypto: Crypto, sealing: Sealing, auditing: AuditConfig)

  /** What a single call works with: the trust store is a file that every call reads anew, if it is there. */
  datatype Config = Config(crypto: Crypto, trust: Option<TrustStore>, sealing: Sealing, auditing: AuditConfig)

  function With(setup: Setup, trust: Option<TrustStore>): Config {
    Config(setup.crypto, trust, setup.sealing, setup.auditing)
  }

  function Apply(cfg: Config, sys: Sys, b: Bundle, now: real): (Sys, Verdict) {
    var v := Judge(cfg.crypto, cfg.trust, sys.state, b);
    (if v.Cleared? then
       sys.(state := UpdatedState(cfg.crypto, sys.state, v, now),
            files := WriteFiles(sys.files, b.payload.value, v.stage))
     else sys,
     v)
  }

  function Approve(cfg: Config, sys: Sys, hash: Option<string>, environment: string, approver: string, reason: string,
                   now: real): (Sys, ApprovalResult)
  {
    var name := Lower(environment);
    var env := EnvironmentOf(sys.state, name);
    var candidate := CandidateFor(env, hash);
    if cfg.trust.None? then (sys, NoTrustStore)
    else if candidate == "" then (sys, NoCandidate)
    else if approver in Approvers(For(env.pending, candidate)) then (sys, AlreadyApproved)
    else
      var ballot := Vote(env, PolicyFor(cfg.trust.value, name).minApprovers, candidate, approver, reason, now);
      var state := sys.state.(environments := sys.state.environments[name := ballot.environment]);
      var (audit, ok) := Append(cfg.auditing, cfg.sealing, sys.audit,
                                Note(now, name, candidate, approver, reason, ballot.status));
      (Sys(state, sys.files, audit),
       if ok then Noted(ballot.status, ballot.required, ballot.approvers) else AuditFailed)
  }

  class SignedBundleUpdater {
    const setup: Setup
    const audit: CanaryApprovalAuditLedger
    /** The content of the trust store file, which its owner may replace between calls. */
    var trust: Option<TrustStore>
    var state: State
    var files: Files

    ghost predicate Valid()
      reads this
    {
      audit.cfg == setup.auditing && audit.sealing == setup.sealing
    }

    ghost function View(): Sys
      reads this, audit
    {
      Sys(state, files, audit.View())
    }

    constructor (setup: Setup, trust: Option<TrustStore>, audit: CanaryApprovalAuditLedger)
      requires audit.cfg == setup.auditing && audit.sealing == setup.sealing
      ensures Valid() && this.setup == setup && this.trust == trust && this.audit == audit
      ensures View() == Sys(NEW_STATE, NO_FILES, audit.View())
    {
      this.setup, this.trust, this.audit, state, files := setup, trust, audit, NEW_STATE, NO_FILES;
    }

    /** The distinct key ids that signed, and whether they are enough. */
    static method VerifySignatures(crypto: Crypto, trust: TrustStore, m: Metadata, p: Payload,
                                   signatures: seq<Signature>, minSignatures: int)
      returns (ok: bool, kids: set<string>)
      ensures kids == ValidKids(crypto, trust, m, p, signatures)
      ensures ok <==> |kids| >= minSignatures
    {
      kids := {};
      for i := 0 to |signatures|
        invariant kids == ValidKids(crypto, trust, m, p, signatures[..i])
      {
        var s := signatures[i];
        assert signatures[..i + 1] == signatures[..i] + [s];
        if Lower(s.algorithm) != "ed25519" || s.kid.None? || s.value.None? {
          continue;
        }
        if s.kid.value in kids {
          continue;
        }
        if s.kid.value !in trust.keys {
          continue;
        }
        var key := trust.keys[s.kid.value];
        if Lower(key.algorithm) != "ed25519" || key.publicKey.None? {
          continue;
        }
        if crypto.verifies(key, s.value.value, m, p) {
          kids := kids + {s.kid.value};
        }
      }
      assert signatures[..|signatures|] == signatures;
      ok := |kids| >= minSignatures;
    }

    method ApplyBundle(b: Bundle, now: real) returns (verdict: Verdict)
      requires Valid()
      modifies this`state, this`files
      ensures Valid() && (View(), verdict) == Apply(With(setup, trust), old(View()), b, now)
    {
      var malformed := StructureError(state, trust, b);
      if malformed.Some? {
        return Refused(malformed.value);
      }
      var m, p := b.metadata.value, b.payload.value;
      var environment := Lower(TextOr(m.environment, "dev"));
      var policy := PolicyFor(trust.value, environment);
      var ok, _ := VerifySignatures(setup.crypto, trust.value, m, p, b.signatures, policy.minSignatures);
      if !ok {
        return Refused(QuorumNotSatisfied);
      }
      var stage, hash := Lower(TextOr(m.stage, "global")), BundleHash(setup.crypto, b);
      if stage == "canary" {
        verdict := Cleared(Canary, environment, m.version.value, hash);
      } else if stage == "global" {
        var error := GateError(m.gate, EnvironmentOf(state, environment), policy);
        if error.Some? {
          return Refused(error.value);
        }
        verdict := Cleared(Global, environment, m.version.value, hash);
      } else {
        return Refused(UnsupportedStage);
      }
      files := WriteFiles(files, p, verdict.stage);
      state := UpdatedState(setup.crypto, state, verdict, now);
    }

    method ApproveCanary(hash: Option<string>, environment: string, approver: string, reason: string, now: real)
      returns (result: ApprovalResult)
      requires Valid()
      modifies this`state, audit
      ensures Valid()
      ensures (View(), result) == Approve(With(setup, trust), old(View()), hash, environment, approver, reason, now)
    {
      var name := Lower(environment);
      if trust.None? {
        return NoTrustStore;
      }
      var env := EnvironmentOf(state, name);
      var candidate := CandidateFor(env, hash);
      if candidate == "" {
        return NoCandidate;
      }
      var required := PolicyFor(trust.value, name).minApprovers;
      if approver in Approvers(For(env.pending, candidate)) {
        return AlreadyApproved;
      }
      var pending, status := env.pending + [Approval(candidate, approver, reason, now)], ApprovalStatus.Pending;
      var approvers := Approvers(For(pending, candidate)) - {""};
      if |approvers| >= required {
        env := env.(approved := candidate, approvedAt := Some(now), approvedBy := approvers);
        pending := Except(pending, candidate);
        status := Approved;
      }
      env := env.(pending := pending);
      state := state.(environments := state.environments[name := env]);
      var ok := audit.AppendRecord(Note(now, name, candidate, approver, reason, status));
      result := if ok then Noted(status, required, approvers) else AuditFailed;
    }
  }
}
