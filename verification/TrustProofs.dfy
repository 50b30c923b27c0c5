/** What a trust store demands and what a bundle says, read off the records themselves. */
module TrustProofs {
  import opened Options
  import opened BundleUpdater

  // ---------- Texts ----------

  /** The same text but for the case of its letters. */
  predicate SameButForCase(a: string, b: string) {
    && |a| == |b|
    && forall i | 0 <= i < |a| ::
         a[i] == b[i] || ('A' <= a[i] <= 'Z' && b[i] as int == a[i] as int - 'A' as int + 'a' as int)
  }

  /** Lowering a text keeps all but its capital letters, and leaves none of these. */
  lemma LoweredText(s: string)
    ensures SameButForCase(s, Lower(s))
    ensures forall i | 0 <= i < |Lower(s)| :: !('A' <= Lower(s)[i] <= 'Z')
  {
  }

  /** A text from a document, or its default, in lower case. */
  function Said(value: Option<string>, default: string): string {
    match value
    case Some(text) => Lower(text)
    case None => Lower(default)
  }

  function TargetOf(m: Metadata): string {
    Said(m.environment, "dev")
  }

  // ---------- Settings ----------

  /** The setting is this number, or it is absent, or too small, and this is the one that stands in for it. */
  predicate Sets(value: Option<int>, n: int, default: int) {
    match value
    case Some(v) => if v >= 1 then n == v else n == 1
    case None => n == default
  }

  predicate ConfiguresApprovers(trust: TrustStore, environment: string, n: int) {
    if environment in trust.environments then Sets(trust.environments[environment].minApprovers, n, 1) else n == 1
  }

  /** The environment's own number of signatures, or the one of the whole store, or one. */
  predicate ConfiguresSignatures(trust: TrustStore, environment: string, n: int) {
    if environment in trust.environments && trust.environments[environment].minSignatures.Some?
    then Sets(trust.environments[environment].minSignatures, n, 1)
    else Sets(trust.minSignatures, n, 1)
  }

  predicate RequiresCanary(trust: TrustStore, environment: string) {
    environment in trust.environments && trust.environments[environment].requireCanary
  }

  /** The metrics of a canary stage meet what the environment asks of them, if it asks for any. */
  predicate Healthy(gate: Gate, trust: TrustStore, environment: string) {
    environment in trust.environments ==>
      var asked := trust.environments[environment];
      asked.minSoak > 0.0 || asked.maxErrorRate < 1.0 ==>
        && gate.soak.Some? && gate.soak.value >= asked.minSoak
        && gate.errorRate.Some? && gate.errorRate.value <= asked.maxErrorRate
  }

  /** The policy that the updater works with is the one that the store configures. */
  lemma PolicyIsConfigured(trust: TrustStore, environment: string)
    ensures var policy := PolicyFor(trust, environment);
      && ConfiguresApprovers(trust, environment, policy.minApprovers)
      && ConfiguresSignatures(trust, environment, policy.minSignatures)
      && policy.minApprovers >= 1 && policy.minSignatures >= 1
      && (policy.requireCanary <==> RequiresCanary(trust, environment))
  {
  }

  /** Every store configures one number of approvers and one number of signatures. */
  lemma SettingsAreUnique(trust: TrustStore, environment: string, n: int)
    ensures ConfiguresApprovers(trust, environment, n) <==> n == PolicyFor(trust, environment).minApprovers
    ensures ConfiguresSignatures(trust, environment, n) <==> n == PolicyFor(trust, environment).minSignatures
  {
  }

  // ---------- Signatures ----------

  /** A signature of the bundle that names this key id, says ed25519, and verifies under that key. */
  predicate Signs(crypto: Crypto, trust: TrustStore, m: Metadata, p: Payload, s: Signature, kid: string) {
    && s.kid == Some(kid) && Lower(s.algorithm) == "ed25519" && s.value.Some?
    && kid in trust.keys
    && crypto.verifies(trust.keys[kid], s.value.value, m, p)
  }

  /** The key id belongs to an ed25519 key of the store, and some signature of the bundle verifies under it. */
  ghost predicate KeySigned(crypto: Crypto, trust: TrustStore, m: Metadata, p: Payload, signatures: seq<Signature>,
                            kid: string)
  {
    && kid in trust.keys && Lower(trust.keys[kid].algorithm) == "ed25519" && trust.keys[kid].publicKey.Some?
    && exists s :: s in signatures && Signs(crypto, trust, m, p, s, kid)
  }

  lemma ValidKidsSigned(crypto: Crypto, trust: TrustStore, m: Metadata, p: Payload, signatures: seq<Signature>,
                        kid: string)
    ensures kid in ValidKids(crypto, trust, m, p, signatures) <==> KeySigned(crypto, trust, m, p, signatures, kid)
  {
    if KeySigned(crypto, trust, m, p, signatures, kid) {
      var s :| s in signatures && Signs(crypto, trust, m, p, s, kid);
      assert ValidSignature(crypto, trust, m, p, s);
    }
  }

  /** These are enough different key ids, all of which signed. */
  ghost predicate Quorum(crypto: Crypto, trust: TrustStore, m: Metadata, p: Payload, signatures: seq<Signature>,
                         kids: set<string>, n: int)
  {
    |kids| >= n && forall kid | kid in kids :: KeySigned(crypto, trust, m, p, signatures, kid)
  }

  lemma QuorumIff(crypto: Crypto, trust: TrustStore, m: Metadata, p: Payload, signatures: seq<Signature>, n: int)
    ensures |ValidKids(crypto, trust, m, p, signatures)| >= n <==>
      exists kids :: Quorum(crypto, trust, m, p, signatures, kids, n)
  {
    var valid := ValidKids(crypto, trust, m, p, signatures);
    forall kid
      ensures kid in valid <==> KeySigned(crypto, trust, m, p, signatures, kid)
    {
      ValidKidsSigned(crypto, trust, m, p, signatures, kid);
    }
    if kids :| Quorum(crypto, trust, m, p, signatures, kids, n) {
      SubsetIsSmaller(kids, valid);
    }
    assert |valid| >= n ==> Quorum(crypto, trust, m, p, signatures, valid, n);
  }

  lemma {:induction false} SubsetIsSmaller(a: set<string>, b: set<string>)
    requires a <= b
    ensures |a| <= |b|
  {
    if a != {} {
      var x :| x in a;
      SubsetIsSmaller(a - {x}, b - {x});
    }
  }
}
