/** The accepted bundles determine the state file and the target files: nothing else leaves a trace. */
module BundleHistory {
  import opened Options
  import opened BundleUpdater
  import opened TrustProofs
  import opened RolloutProofs

  // ---------- Acceptance ----------

  /**
   * Which key ids have some valid signature is all that matters about the signatures of a bundle: their
   * order, their repetition and any invalid ones change neither acceptance nor what is accepted.
   */
  lemma OnlyKeyIdsMatter(crypto: Crypto, trust: TrustStore, state: State, b: Bundle, c: Bundle)
    requires b.metadata.Some? && b.payload.Some? && c.metadata == b.metadata && c.payload == b.payload
    requires ValidKids(crypto, trust, b.metadata.value, b.payload.value, b.signatures) ==
             ValidKids(crypto, trust, c.metadata.value, c.payload.value, c.signatures)
    ensures var v, w := Judge(crypto, Some(trust), state, b), Judge(crypto, Some(trust), state, c);
      && (v.Cleared? <==> w.Cleared?)
      && (v.Cleared? ==> v.stage == w.stage && v.environment == w.environment && v.version == w.version)
  {
    NoSignatureNoKid(crypto, trust, b);
    NoSignatureNoKid(crypto, trust, c);
  }

  lemma NoSignatureNoKid(crypto: Crypto, trust: TrustStore, b: Bundle)
    requires b.metadata.Some? && b.payload.Some?
    ensures b.signatures == [] ==> ValidKids(crypto, trust, b.metadata.value, b.payload.value, b.signatures) == {}
  {
  }

  /** A global bundle needs no approved source, or names it, with metrics that suffice. */
  predicate GateOpen(trust: TrustStore, environment: string, gate: Option<Gate>, env: EnvironmentState) {
    RequiresCanary(trust, environment) || (gate.Some? && gate.value.required) ==>
      && gate.Some? && gate.value.source.Some? && gate.value.source.value != ""
      && gate.value.source.value == env.approved && Healthy(gate.value, trust, environment)
  }

  /**
   * Complete, newer than anything accepted before, and signed under as many different ed25519 keys of the
   * store as it configures.
   */
  ghost predicate NewAndSigned(crypto: Crypto, trust: Option<TrustStore>, state: State, b: Bundle) {
    && trust.Some? && b.metadata.Some? && b.payload.Some?
    && b.metadata.value.version.Some? && b.metadata.value.version.value > state.lastVersion
    && exists kids, n ::
         && ConfiguresSignatures(trust.value, TargetOf(b.metadata.value), n)
         && Quorum(crypto, trust.value, b.metadata.value, b.payload.value, b.signatures, kids, n)
  }

  lemma NewAndSignedIff(crypto: Crypto, trust: TrustStore, state: State, b: Bundle)
    requires b.metadata.Some? && b.payload.Some?
    ensures NewAndSigned(crypto, Some(trust), state, b) <==>
      && b.metadata.value.version.Some? && b.metadata.value.version.value > state.lastVersion
      && |ValidKids(crypto, trust, b.metadata.value, b.payload.value, b.signatures)| >=
           PolicyFor(trust, TargetOf(b.metadata.value)).minSignatures
  {
    var m, p, environment := b.metadata.value, b.payload.value, TargetOf(b.metadata.value);
    var n := PolicyFor(trust, environment).minSignatures;
    PolicyIsConfigured(trust, environment);
    QuorumIff(crypto, trust, m, p, b.signatures, n);
    if kids, k :| ConfiguresSignatures(trust, environment, k) && Quorum(crypto, trust, m, p, b.signatures, kids, k) {
      SettingsAreUnique(trust, environment, k);
    }
    if kids :| Quorum(crypto, trust, m, p, b.signatures, kids, n) {
      assert ConfiguresSignatures(trust, environment, n) && Quorum(crypto, trust, m, p, b.signatures, kids, n);
    }
  }

  lemma GateOpensIff(trust: TrustStore, environment: string, gate: Option<Gate>, env: EnvironmentState)
    ensures GateError(gate, env, PolicyFor(trust, environment)).None? <==> GateOpen(trust, environment, gate, env)
  {
  }

  /** A bundle is accepted exactly if it is newer, signed by a quorum, and canary or through an open gate. */
  lemma AcceptedIff(crypto: Crypto, trust: Option<TrustStore>, state: State, b: Bundle)
    ensures Judge(crypto, trust, state, b).Cleared? <==>
      && NewAndSigned(crypto, trust, state, b)
      && var m, environment := b.metadata.value, TargetOf(b.metadata.value);
      && (Said(m.stage, "global") == "canary" ||
          (Said(m.stage, "global") == "global" &&
           GateOpen(trust.value, environment, m.gate, EnvironmentOf(state, environment))))
  {
    if b.metadata.Some? && b.payload.Some? && trust.Some? {
      var m, environment := b.metadata.value, TargetOf(b.metadata.value);
      NewAndSignedIff(crypto, trust.value, state, b);
      NoSignatureNoKid(crypto, trust.value, b);
      PolicyIsConfigured(trust.value, environment);
      GateOpensIff(trust.value, environment, m.gate, EnvironmentOf(state, environment));
    }
  }

  /** A bundle none of whose signatures verifies under any key of the store is never accepted. */
  lemma UnverifiedIsRefused(crypto: Crypto, trust: TrustStore, state: State, b: Bundle)
    requires b.metadata.Some? && b.payload.Some?
    requires forall s, kid | s in b.signatures && kid in trust.keys && s.value.Some? ::
      !crypto.verifies(trust.keys[kid], s.value.value, b.metadata.value, b.payload.value)
    ensures Judge(crypto, Some(trust), state, b).Refused?
  {
    AcceptedIff(crypto, Some(trust), state, b);
    forall kids, n
      ensures !(ConfiguresSignatures(trust, TargetOf(b.metadata.value), n) &&
                Quorum(crypto, trust, b.metadata.value, b.payload.value, b.signatures, kids, n))
    {
      SettingsAreUnique(trust, TargetOf(b.metadata.value), n);
      PolicyIsConfigured(trust, TargetOf(b.metadata.value));
      NoQuorumUnsigned(crypto, trust, b.metadata.value, b.payload.value, b.signatures, kids, n);
    }
  }

  lemma NoQuorumUnsigned(crypto: Crypto, trust: TrustStore, m: Metadata, p: Payload, signatures: seq<Signature>,
                         kids: set<string>, n: int)
    requires forall s, kid | s in signatures && kid in trust.keys && s.value.Some? ::
      !crypto.verifies(trust.keys[kid], s.value.value, m, p)
    ensures Quorum(crypto, trust, m, p, signatures, kids, n) ==> n <= 0
  {
    forall kid
      ensures !KeySigned(crypto, trust, m, p, signatures, kid)
    {
    }
    assert Quorum(crypto, trust, m, p, signatures, kids, n) ==> kids == {};
  }

  // ---------- Refusals ----------

  /** What a refusal says of the bundle is true. */
  ghost predicate Faulty(crypto: Crypto, trust: Option<TrustStore>, state: State, b: Bundle, error: ApplyError) {
    match error
    case InvalidStructure => b.metadata.None? || b.payload.None? || b.signatures == []
    case VersionInvalid => b.metadata.Some? && b.metadata.value.version.None?
    case VersionNotNewer =>
      b.metadata.Some? && b.metadata.value.version.Some? && b.metadata.value.version.value <= state.lastVersion
    case TrustStoreMissing => trust.None?
    case QuorumNotSatisfied =>
      b.metadata.Some? && b.payload.Some? && trust.Some? && b.metadata.value.version.Some? &&
      b.metadata.value.version.value > state.lastVersion && !NewAndSigned(crypto, trust, state, b)
    case UnsupportedStage => b.metadata.Some? && Said(b.metadata.value.stage, "global") !in {"canary", "global"}
    case _ =>
      b.metadata.Some? && trust.Some? && Said(b.metadata.value.stage, "global") == "global" &&
      GateFaulty(trust.value, TargetOf(b.metadata.value), b.metadata.value.gate,
                 EnvironmentOf(state, TargetOf(b.metadata.value)), error)
  }

  predicate GateFaulty(trust: TrustStore, environment: string, gate: Option<Gate>, env: EnvironmentState,
                       error: ApplyError)
  {
    && (RequiresCanary(trust, environment) || (gate.Some? && gate.value.required))
    && match error
       case SourceHashMissing => gate.None? || gate.value.source.None? || gate.value.source.value == ""
       case CanaryNotApproved => gate.Some? && gate.value.source.Some? && gate.value.source.value != env.approved
       case MetricsMissing =>
         AsksForMetrics(trust, environment) && gate.Some? && (gate.value.soak.None? || gate.value.errorRate.None?)
       case SoakTooShort =>
         AsksForMetrics(trust, environment) && gate.Some? && gate.value.soak.Some? &&
         gate.value.soak.value < trust.environments[environment].minSoak
       case ErrorRateTooHigh =>
         AsksForMetrics(trust, environment) && gate.Some? && gate.value.errorRate.Some? &&
         gate.value.errorRate.value > trust.environments[environment].maxErrorRate
       case _ => false
  }

  predicate AsksForMetrics(trust: TrustStore, environment: string) {
    environment in trust.environments &&
    (trust.environments[environment].minSoak > 0.0 || trust.environments[environment].maxErrorRate < 1.0)
  }

  /** The order in which a bundle is examined. */
  function Place(error: ApplyError): nat {
    match error
    case InvalidStructure => 0
    case VersionInvalid => 1
    case VersionNotNewer => 2
    case TrustStoreMissing => 3
    case QuorumNotSatisfied => 4
    case UnsupportedStage => 5
    case SourceHashMissing => 6
    case CanaryNotApproved => 7
    case MetricsMissing => 8
    case SoakTooShort => 9
    case ErrorRateTooHigh => 10
  }

  lemma GateErrorIsFirst(trust: TrustStore, environment: string, gate: Option<Gate>, env: EnvironmentState)
    ensures var error := GateError(gate, env, PolicyFor(trust, environment));
      error.Some? ==>
        && GateFaulty(trust, environment, gate, env, error.value) && Place(error.value) > 5
        && forall other | Place(other) < Place(error.value) :: !GateFaulty(trust, environment, gate, env, other)
  {
  }

  lemma StructureErrorIsFirst(crypto: Crypto, trust: Option<TrustStore>, state: State, b: Bundle)
    ensures var error := StructureError(state, trust, b);
      if error.Some? then
        && Faulty(crypto, trust, state, b, error.value) && Place(error.value) <= 3
        && forall other | Place(other) < Place(error.value) :: !Faulty(crypto, trust, state, b, other)
      else forall other | Place(other) <= 3 :: !Faulty(crypto, trust, state, b, other)
  {
  }

  /** Past the structure of a bundle: its signatures, its stage, and its gate. */
  lemma LaterErrorIsFirst(crypto: Crypto, trust: TrustStore, state: State, b: Bundle)
    requires StructureError(state, Some(trust), b).None? && Judge(crypto, Some(trust), state, b).Refused?
    ensures var error := Judge(crypto, Some(trust), state, b).error;
      && Faulty(crypto, Some(trust), state, b, error) && Place(error) > 3
      && forall other | 3 < Place(other) < Place(error) :: !Faulty(crypto, Some(trust), state, b, other)
  {
    var m, environment := b.metadata.value, TargetOf(b.metadata.value);
    NewAndSignedIff(crypto, trust, state, b);
    GateErrorIsFirst(trust, environment, m.gate, EnvironmentOf(state, environment));
  }

  /** A refused bundle is refused for the first fault that it has. */
  lemma RefusedForFirstFault(crypto: Crypto, trust: Option<TrustStore>, state: State, b: Bundle)
    requires Judge(crypto, trust, state, b).Refused?
    ensures var error := Judge(crypto, trust, state, b).error;
      && Faulty(crypto, trust, state, b, error)
      && forall other | Place(other) < Place(error) :: !Faulty(crypto, trust, state, b, other)
  {
    StructureErrorIsFirst(crypto, trust, state, b);
    if StructureError(state, trust, b).None? {
      LaterErrorIsFirst(crypto, trust.value, state, b);
    }
  }

  // ---------- What the accepted bundles leave behind ----------

  function AppliedIn(facts: seq<Fact>): seq<Fact> {
    if facts == [] then []
    else
      var n := |facts| - 1;
      AppliedIn(facts[..n]) + if facts[n].Applied? then [facts[n]] else []
  }

  function ChainOf(crypto: Crypto, hashes: seq<string>): string {
    if hashes == [] then ""
    else crypto.sha(ChainOf(crypto, hashes[..|hashes| - 1]) + ":" + hashes[|hashes| - 1])
  }

  function Hashes(facts: seq<Fact>): (r: seq<string>)
  {
    if facts == [] then []
    else
      var n := |facts| - 1;
      Hashes(facts[..n]) + if facts[n].Applied? then [facts[n].hash] else []
  }

  /** The payloads brought into force at a stage, in order. */
  function PayloadsAt(facts: seq<Fact>, stage: Stage): seq<Payload> {
    if facts == [] then []
    else
      var n := |facts| - 1;
      PayloadsAt(facts[..n], stage) +
        if facts[n].Applied? && facts[n].stage == stage && facts[n].bundle.payload.Some?
        then [facts[n].bundle.payload.value] else []
  }

  /** The last document that a list of payloads brings for one target. */
  function Latest(payloads: seq<Payload>, pick: Payload -> Option<Document>): Option<Document> {
    if payloads == [] then None
    else
      var n := |payloads| - 1;
      if pick(payloads[n]).Some? then pick(payloads[n]) else Latest(payloads[..n], pick)
  }

  function LatestFiles(facts: seq<Fact>): Files {
    var global, canary := PayloadsAt(facts, Global), PayloadsAt(facts, Canary);
    Files(Latest(global, (p: Payload) => p.keyring), Latest(global, (p: Payload) => p.pinset),
          Latest(global, (p: Payload) => p.rolloutPolicy),
          Latest(canary, (p: Payload) => p.keyring), Latest(canary, (p: Payload) => p.pinset))
  }

  ghost predicate VersionsIncrease(facts: seq<Fact>, last: int) {
    var a := AppliedIn(facts);
    && (forall i, j | 0 <= i < j < |a| :: a[i].Applied? && a[j].Applied? && a[i].version < a[j].version)
    && (forall i | 0 <= i < |a| :: a[i].Applied? && 0 < a[i].version)
    && if a == [] then last == 0 else a[|a| - 1].Applied? && last == a[|a| - 1].version
  }

  ghost predicate LeftBy(crypto: Crypto, facts: seq<Fact>, sys: Sys) {
    && VersionsIncrease(facts, sys.state.lastVersion)
    && sys.state.chainHash == ChainOf(crypto, Hashes(facts))
    && sys.state.lastBundleHash == (if Hashes(facts) == [] then "" else Hashes(facts)[|Hashes(facts)| - 1])
    && sys.files == LatestFiles(facts)
  }

  lemma LatestMore(payloads: seq<Payload>, p: Payload, pick: Payload -> Option<Document>)
    ensures Latest(payloads + [p], pick) == if pick(p).Some? then pick(p) else Latest(payloads, pick)
  {
    Extended(payloads, p);
  }

  lemma LatestFilesMore(facts: seq<Fact>, f: Fact)
    requires f.Applied? && f.bundle.payload.Some?
    ensures LatestFiles(facts + [f]) == WriteFiles(LatestFiles(facts), f.bundle.payload.value, f.stage)
  {
    Extended(facts, f);
    var p, payloads := f.bundle.payload.value, PayloadsAt(facts, f.stage);
    LatestMore(payloads, p, (q: Payload) => q.keyring);
    LatestMore(payloads, p, (q: Payload) => q.pinset);
    LatestMore(payloads, p, (q: Payload) => q.rolloutPolicy);
    assert PayloadsAt(facts, Canary) + [] == PayloadsAt(facts, Canary);
    assert PayloadsAt(facts, Global) + [] == PayloadsAt(facts, Global);
  }

  /** Approvals leave no trace in what bundles leave behind. */
  lemma EndorsedLeavesNothing(facts: seq<Fact>, f: Fact)
    requires f.Endorsed?
    ensures AppliedIn(facts + [f]) == AppliedIn(facts) && Hashes(facts + [f]) == Hashes(facts)
    ensures LatestFiles(facts + [f]) == LatestFiles(facts)
  {
    Extended(facts, f);
    assert PayloadsAt(facts, Canary) + [] == PayloadsAt(facts, Canary);
    assert PayloadsAt(facts, Global) + [] == PayloadsAt(facts, Global);
  }

  lemma VersionsIncreaseMore(facts: seq<Fact>, last: int, f: Fact)
    requires VersionsIncrease(facts, last) && f.Applied? && f.version > last
    ensures VersionsIncrease(facts + [f], f.version)
  {
    Extended(facts, f);
    var a, b := AppliedIn(facts), AppliedIn(facts + [f]);
    assert b == a + [f];
    forall i, j | 0 <= i < j < |b|
      ensures b[i].Applied? && b[j].Applied? && b[i].version < b[j].version
    {
      assert b[i] == a[i];
      assert a[i].version <= a[|a| - 1].version;
    }
  }

  lemma HashesMore(crypto: Crypto, facts: seq<Fact>, f: Fact)
    requires f.Applied?
    ensures ChainOf(crypto, Hashes(facts + [f])) == ChainWith(crypto, ChainOf(crypto, Hashes(facts)), f.hash)
  {
    Extended(facts, f);
    Extended(Hashes(facts), f.hash);
  }

  lemma AchievedLeaves(cfg: Config, sys: Sys, facts: seq<Fact>, f: Fact, next: Sys)
    requires LeftBy(cfg.crypto, facts, sys) && Achieved(cfg, sys, f, next)
    ensures LeftBy(cfg.crypto, facts + [f], next)
  {
    if f.Endorsed? {
      EndorsedLeavesNothing(facts, f);
    } else {
      VersionsIncreaseMore(facts, sys.state.lastVersion, f);
      HashesMore(cfg.crypto, facts, f);
      LatestFilesMore(facts, f);
    }
  }

  /**
   * Any history, whatever trust stores it found, leaves exactly the fold of its accepted bundles: versions
   * increase strictly, the chain hash folds their hashes, and each target file is the last one brought by a
   * payload of its own stage.
   */
  lemma {:induction false} HistoryIsFoldOfAccepted(setup: Setup, turns: seq<Turn>)
    ensures var (sys, facts) := Run(setup, turns); LeftBy(setup.crypto, facts, sys)
  {
    if turns != [] {
      HistoryIsFoldOfAccepted(setup, turns[..|turns| - 1]);
      var cfg, sys, facts, next, f := LastOf(setup, turns);
      if f.Some? {
        AchievedLeaves(cfg, sys, facts, f.value, next);
      }
    }
  }

  // ---------- Equal chains ----------

  ghost predicate HexHashes(crypto: Crypto) {
    forall text :: |crypto.sha(text)| == 64
  }

  /** Two different texts with one hash. */
  ghost predicate Clash(crypto: Crypto, c: Option<(string, string)>) {
    c.Some? && c.value.0 != c.value.1 && crypto.sha(c.value.0) == crypto.sha(c.value.1)
  }

  function SeedOf(crypto: Crypto, hashes: seq<string>): string
    requires hashes != []
  {
    ChainOf(crypto, hashes[..|hashes| - 1]) + ":" + hashes[|hashes| - 1]
  }

  /** The seeds at which two chains with a common end part, looking backwards. */
  function ChainClash(crypto: Crypto, hashes: seq<string>, others: seq<string>): Option<(string, string)> {
    if hashes == [] || others == [] then None
    else if SeedOf(crypto, hashes) != SeedOf(crypto, others) then Some((SeedOf(crypto, hashes), SeedOf(crypto, others)))
    else ChainClash(crypto, hashes[..|hashes| - 1], others[..|others| - 1])
  }

  lemma SeedsSplit(a: string, b: string, c: string, d: string)
    requires a + ":" + b == c + ":" + d && |b| == |d|
    ensures a == c && b == d
  {
    var s := a + ":" + b;
    assert |a| == |c|;
    assert s[..|a|] == a && s[|a| + 1..] == b;
    assert s[..|c|] == c && s[|c| + 1..] == d;
  }

  /** Chains extended by one hash each and ending alike part in their last seeds, or earlier, or not at all. */
  lemma ChainClashReaches(crypto: Crypto, hashes: seq<string>, h: string, others: seq<string>, o: string)
    requires |h| == |o| == 64
    requires ChainOf(crypto, hashes + [h]) == ChainOf(crypto, others + [o])
    requires ChainOf(crypto, hashes) == ChainOf(crypto, others) ==>
      hashes == others || Clash(crypto, ChainClash(crypto, hashes, others))
    ensures hashes + [h] == others + [o] || Clash(crypto, ChainClash(crypto, hashes + [h], others + [o]))
  {
    Extended(hashes, h);
    Extended(others, o);
    var a, b := ChainOf(crypto, hashes), ChainOf(crypto, others);
    assert SeedOf(crypto, hashes + [h]) == a + ":" + h && SeedOf(crypto, others + [o]) == b + ":" + o;
    if a + ":" + h == b + ":" + o {
      SeedsSplit(a, h, b, o);
    }
  }

  lemma {:induction false} EqualChainsMeanEqualHashes(crypto: Crypto, hashes: seq<string>, others: seq<string>)
    requires HexHashes(crypto)
    requires (forall h | h in hashes :: |h| == 64) && (forall h | h in others :: |h| == 64)
    requires ChainOf(crypto, hashes) == ChainOf(crypto, others)
    ensures hashes == others || Clash(crypto, ChainClash(crypto, hashes, others))
  {
    if hashes != [] && others != [] {
      var m, n := |hashes| - 1, |others| - 1;
      assert hashes == hashes[..m] + [hashes[m]] && others == others[..n] + [others[n]];
      if ChainOf(crypto, hashes[..m]) == ChainOf(crypto, others[..n]) {
        EqualChainsMeanEqualHashes(crypto, hashes[..m], others[..n]);
      }
      ChainClashReaches(crypto, hashes[..m], hashes[m], others[..n], others[n]);
    }
  }

  /** A bundle that has the parts that its hash covers. */
  type CompleteBundle = b: Bundle | b.metadata.Some? && b.payload.Some?
    witness Bundle(Some(Metadata(None, None, None, None, "")), Some(Payload(None, None, None)), [])

  /** The accepted bundles, in order. */
  function BundlesIn(facts: seq<Fact>): seq<CompleteBundle> {
    if facts == [] then []
    else
      var n := |facts| - 1;
      BundlesIn(facts[..n]) +
        if facts[n].Applied? && facts[n].bundle.metadata.Some? && facts[n].bundle.payload.Some?
        then [facts[n].bundle] else []
  }

  function TextOf(crypto: Crypto, b: CompleteBundle): string {
    crypto.canonical(b.metadata.value, b.payload.value, b.signatures)
  }

  /** Their canonical texts. */
  function Texts(crypto: Crypto, bundles: seq<CompleteBundle>): seq<string> {
    if bundles == [] then [] else Texts(crypto, bundles[..|bundles| - 1]) + [TextOf(crypto, bundles[|bundles| - 1])]
  }

  ghost predicate HashesTexts(crypto: Crypto, hashes: seq<string>, texts: seq<string>) {
    |hashes| == |texts| && forall i | 0 <= i < |hashes| :: hashes[i] == crypto.sha(texts[i])
  }

  lemma TextsMore(crypto: Crypto, bundles: seq<CompleteBundle>, b: CompleteBundle)
    ensures Texts(crypto, bundles + [b]) == Texts(crypto, bundles) + [TextOf(crypto, b)]
  {
    Extended(bundles, b);
  }

  lemma HashesTextsMore(cfg: Config, sys: Sys, facts: seq<Fact>, f: Fact, next: Sys)
    requires HashesTexts(cfg.crypto, Hashes(facts), Texts(cfg.crypto, BundlesIn(facts))) && Achieved(cfg, sys, f, next)
    ensures HashesTexts(cfg.crypto, Hashes(facts + [f]), Texts(cfg.crypto, BundlesIn(facts + [f])))
  {
    Extended(facts, f);
    if f.Applied? {
      assert BundlesIn(facts + [f]) == BundlesIn(facts) + [f.bundle];
      TextsMore(cfg.crypto, BundlesIn(facts), f.bundle);
    } else {
      assert BundlesIn(facts + [f]) == BundlesIn(facts) && Hashes(facts + [f]) == Hashes(facts);
    }
  }

  lemma {:induction false} RunHashesTexts(setup: Setup, turns: seq<Turn>)
    ensures var facts := Run(setup, turns).1;
      HashesTexts(setup.crypto, Hashes(facts), Texts(setup.crypto, BundlesIn(facts)))
  {
    if turns != [] {
      RunHashesTexts(setup, turns[..|turns| - 1]);
      var cfg, sys, facts, next, f := LastOf(setup, turns);
      if f.Some? {
        HashesTextsMore(cfg, sys, facts, f.value, next);
      }
    }
  }

  function TextClash(texts: seq<string>, others: seq<string>): Option<(string, string)> {
    if texts == [] || others == [] then None
    else
      var a, b := texts[|texts| - 1], others[|others| - 1];
      if a != b then Some((a, b)) else TextClash(texts[..|texts| - 1], others[..|others| - 1])
  }

  lemma {:induction false} EqualHashesMeanEqualTexts(crypto: Crypto, hashes: seq<string>, texts: seq<string>,
                                                     others: seq<string>)
    requires HashesTexts(crypto, hashes, texts) && HashesTexts(crypto, hashes, others)
    ensures texts == others || Clash(crypto, TextClash(texts, others))
  {
    if texts != [] {
      var n := |texts| - 1;
      assert hashes[n] == crypto.sha(texts[n]) == crypto.sha(others[n]);
      if texts[n] == others[n] {
        EqualHashesMeanEqualTexts(crypto, hashes[..n], texts[..n], others[..n]);
        assert texts == texts[..n] + [texts[n]] && others == others[..n] + [others[n]];
      }
    }
  }

  /** The last difference between two lists of bundles, counted from their ends. */
  function Difference(bundles: seq<CompleteBundle>, others: seq<CompleteBundle>)
    : Option<(CompleteBundle, CompleteBundle)>
  {
    if bundles == [] || others == [] then None
    else
      var a, b := bundles[|bundles| - 1], others[|others| - 1];
      if a != b then Some((a, b)) else Difference(bundles[..|bundles| - 1], others[..|others| - 1])
  }

  /** Two different bundles with one canonical text. */
  ghost predicate Twins(crypto: Crypto, pair: Option<(CompleteBundle, CompleteBundle)>) {
    pair.Some? && pair.value.0 != pair.value.1 && TextOf(crypto, pair.value.0) == TextOf(crypto, pair.value.1)
  }

  lemma SplitLast<T>(a: seq<T>, x: T, b: seq<T>, y: T)
    requires a + [x] == b + [y]
    ensures a == b && x == y
  {
    assert (a + [x])[..|a|] == a && (b + [y])[..|b|] == b;
    assert (a + [x])[|a|] == x && (b + [y])[|b|] == y;
  }

  lemma {:induction false} EqualTextsMeanEqualBundles(crypto: Crypto, bundles: seq<CompleteBundle>,
                                                      others: seq<CompleteBundle>)
    requires Texts(crypto, bundles) == Texts(crypto, others)
    ensures bundles == others || Twins(crypto, Difference(bundles, others))
  {
    if bundles != [] && others != [] {
      var m, n := |bundles| - 1, |others| - 1;
      SplitLast(Texts(crypto, bundles[..m]), TextOf(crypto, bundles[m]), Texts(crypto, others[..n]),
                TextOf(crypto, others[n]));
      if bundles[m] == others[n] {
        EqualTextsMeanEqualBundles(crypto, bundles[..m], others[..n]);
        assert bundles == bundles[..m] + [bundles[m]] && others == others[..n] + [others[n]];
      }
    }
  }

  /** Where to look for the clash of two histories: in their chains, or else in their bundles' texts. */
  function HistoryClash(crypto: Crypto, facts: seq<Fact>, others: seq<Fact>): Option<(string, string)> {
    if Hashes(facts) != Hashes(others) then ChainClash(crypto, Hashes(facts), Hashes(others))
    else TextClash(Texts(crypto, BundlesIn(facts)), Texts(crypto, BundlesIn(others)))
  }

  /**
   * Two installations, whatever their trust stores and approvals, whose chain hashes agree have accepted
   * the same bundles in the same order, or their histories exhibit a clash of the hash, or two different
   * bundles with the same canonical text.
   */
  lemma EqualChainsMeanEqualHistories(setup: Setup, turns: seq<Turn>, other: Setup, others: seq<Turn>)
    requires HexHashes(setup.crypto) && other.crypto == setup.crypto
    requires Run(setup, turns).0.state.chainHash == Run(other, others).0.state.chainHash
    ensures var facts, facts' := Run(setup, turns).1, Run(other, others).1;
      || BundlesIn(facts) == BundlesIn(facts')
      || Clash(setup.crypto, HistoryClash(setup.crypto, facts, facts'))
      || Twins(setup.crypto, Difference(BundlesIn(facts), BundlesIn(facts')))
  {
    var facts, facts' := Run(setup, turns).1, Run(other, others).1;
    var texts, texts' := Texts(setup.crypto, BundlesIn(facts)), Texts(setup.crypto, BundlesIn(facts'));
    HistoryIsFoldOfAccepted(setup, turns);
    HistoryIsFoldOfAccepted(other, others);
    RunHashesTexts(setup, turns);
    RunHashesTexts(other, others);
    EqualChainsMeanEqualHashes(setup.crypto, Hashes(facts), Hashes(facts'));
    if Hashes(facts) == Hashes(facts') {
      EqualHashesMeanEqualTexts(setup.crypto, Hashes(facts), texts, texts');
      if texts == texts' {
        EqualTextsMeanEqualBundles(setup.crypto, BundlesIn(facts), BundlesIn(facts'));
      }
    }
  }
}
