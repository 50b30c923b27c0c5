/** Which bundles get approved, and whether they have been through the canary stage of their environment. */
module CanaryProofs {
  import opened Options
  import opened ApprovalAudit
  import opened BundleUpdater
  import opened TrustProofs
  import opened RolloutProofs
  import opened BundleHistory

  // ---------- The canary stage ----------

  /** The hash of the last canary bundle of an environment, or the empty text. */
  function LastCanaryOf(facts: seq<Fact>, environment: string): string {
    if facts == [] then ""
    else
      var f := facts[|facts| - 1];
      if f.Applied? && f.stage == Canary && f.environment == environment then f.hash
      else LastCanaryOf(facts[..|facts| - 1], environment)
  }

  function LastCanaryTimeOf(facts: seq<Fact>, environment: string): Option<real> {
    if facts == [] then None
    else
      var f := facts[|facts| - 1];
      if f.Applied? && f.stage == Canary && f.environment == environment then Some(f.at)
      else LastCanaryTimeOf(facts[..|facts| - 1], environment)
  }

  lemma CanaryMoves(cfg: Config, sys: Sys, f: Fact, next: Sys, environment: string)
    requires Achieved(cfg, sys, f, next)
    ensures var before, after := EnvironmentOf(sys.state, environment), EnvironmentOf(next.state, environment);
      (after.lastCanary, after.lastCanaryAt) ==
        if f.Applied? && f.stage == Canary && f.environment == environment then (f.hash, Some(f.at))
        else (before.lastCanary, before.lastCanaryAt)
  {
  }

  /** The state file names the last canary bundle of each environment, and its time. */
  lemma {:induction false} RunTracksCanary(setup: Setup, turns: seq<Turn>, environment: string)
    ensures var (sys, facts) := Run(setup, turns);
      && EnvironmentOf(sys.state, environment).lastCanary == LastCanaryOf(facts, environment)
      && EnvironmentOf(sys.state, environment).lastCanaryAt == LastCanaryTimeOf(facts, environment)
  {
    if turns != [] {
      RunTracksCanary(setup, turns[..|turns| - 1], environment);
      var cfg, sys, facts, next, f := LastOf(setup, turns);
      if f.Some? {
        CanaryMoves(cfg, sys, f.value, next, environment);
        Extended(facts, f.value);
      }
    }
  }

  /** The hashes of the bundles that took force in the canary stage of an environment. */
  function CanariesOf(facts: seq<Fact>, environment: string): set<string> {
    set f | f in facts && f.Applied? && f.stage == Canary && f.environment == environment :: f.hash
  }

  lemma {:induction false} LastCanaryIsCanary(facts: seq<Fact>, environment: string)
    ensures LastCanaryOf(facts, environment) != "" ==>
      LastCanaryOf(facts, environment) in CanariesOf(facts, environment)
  {
    if facts != [] {
      LastCanaryIsCanary(facts[..|facts| - 1], environment);
    }
  }

  /** The call gave no bundle hash, or an empty one. */
  predicate Unnamed(named: Option<string>) {
    named.None? || named.value == ""
  }

  /** An approval that names no bundle is for the last canary bundle of its environment, and fails without one. */
  lemma DefaultApprovalIsForLastCanary(setup: Setup, turns: seq<Turn>, trust: TrustStore, op: Op)
    requires op.Endorse? && Unnamed(op.hash)
    ensures var (sys, facts) := Run(setup, turns);
      var cfg, canary := With(setup, Some(trust)), LastCanaryOf(facts, Lower(op.environment));
      && (canary == "" <==> ApproveBy(cfg, sys, op).1 == NoCandidate)
      && forall f | f in Perform(cfg, sys, op).1 :: f.Endorsed? && f.note.bundleHash == canary
  {
    RunTracksCanary(setup, turns, Lower(op.environment));
  }

  // ---------- When an approval is for a canary bundle ----------

  /** The call named no bundle, or one of these. */
  predicate NamesNoneBut(named: Option<string>, hashes: set<string>) {
    Unnamed(named) || named.value in hashes
  }

  /** The approval is for a canary bundle exactly if its call named none, or a canary bundle. */
  ghost predicate CanaryIff(facts: seq<Fact>, i: nat)
    requires i < |facts|
  {
    facts[i].Endorsed? ==>
      var canaries := CanariesOf(facts[..i], facts[i].note.environment);
      facts[i].note.bundleHash in canaries <==> NamesNoneBut(facts[i].named, canaries)
  }

  lemma LastApprovalIsForCanaryIff(cfg: Config, sys: Sys, facts: seq<Fact>, f: Fact, next: Sys)
    requires Achieved(cfg, sys, f, next)
    requires forall e :: EnvironmentOf(sys.state, e).lastCanary == LastCanaryOf(facts, e)
    ensures CanaryIff(facts + [f], |facts|)
  {
    if f.Endorsed? {
      assert (facts + [f])[..|facts|] == facts;
      LastCanaryIsCanary(facts, f.note.environment);
      assert EnvironmentOf(sys.state, f.note.environment).lastCanary == LastCanaryOf(facts, f.note.environment);
    }
  }

  lemma CanaryIffExtends(facts: seq<Fact>, f: Fact, i: nat)
    requires i < |facts| && CanaryIff(facts, i)
    ensures CanaryIff(facts + [f], i)
  {
    assert (facts + [f])[..i] == facts[..i];
  }

  /**
   * In any history, whatever trust stores it found, an approval is for a bundle that has been through the
   * canary stage of its environment exactly if its call named no bundle, or an empty one, or one that has
   * been through that stage.
   */
  lemma {:induction false} ApprovalIsForCanaryIff(setup: Setup, turns: seq<Turn>, i: nat)
    requires i < |Run(setup, turns).1|
    ensures CanaryIff(Run(setup, turns).1, i)
  {
    var before := turns[..|turns| - 1];
    var cfg, sys, facts, next, f := LastOf(setup, turns);
    if i < |facts| {
      ApprovalIsForCanaryIff(setup, before, i);
      if f.Some? {
        CanaryIffExtends(facts, f.value, i);
      }
    } else {
      forall e
        ensures EnvironmentOf(sys.state, e).lastCanary == LastCanaryOf(facts, e)
      {
        RunTracksCanary(setup, before, e);
      }
      LastApprovalIsForCanaryIff(cfg, sys, facts, f.value, next);
    }
  }

  lemma CanariesGrow(facts: seq<Fact>, j: nat, k: nat, environment: string)
    requires j <= k <= |facts|
    ensures CanariesOf(facts[..j], environment) <= CanariesOf(facts[..k], environment)
  {
    assert forall f :: f in facts[..j] ==> f in facts[..k];
  }

  /**
   * Exactly when a gated global apply promotes a canary bundle: the source it names has been through the
   * canary stage of the environment, at the time of the approval it consumes or at any time up to the
   * apply, if and only if the vote that completed that approval named no bundle, or one that had by then.
   */
  lemma PromotionIsOfCanaryIff(setup: Setup, turns: seq<Turn>, i: nat) returns (j: nat)
    requires var facts := Run(setup, turns).1; i < |facts| && facts[i].Applied? && facts[i].gated
    ensures var facts := Run(setup, turns).1;
      var e := facts[i].environment;
      && StandsAt(facts, e, j, i)
      && facts[i].bundle.metadata.Some? && facts[i].bundle.metadata.value.gate.Some?
      && facts[i].bundle.metadata.value.gate.value.source.Some?
      && forall k | j <= k <= i ::
           facts[i].bundle.metadata.value.gate.value.source.value in CanariesOf(facts[..k], e) <==>
           NamesNoneBut(facts[j].named, CanariesOf(facts[..k], e))
  {
    var facts := Run(setup, turns).1;
    var e := facts[i].environment;
    j := GlobalConsumesApproval(setup, turns, i);
    ApprovalIsForCanaryIff(setup, turns, j);
    ApprovalHashIsNamed(setup, turns, j);
    forall k | j <= k <= i
      ensures facts[j].note.bundleHash in CanariesOf(facts[..k], e) <==>
              NamesNoneBut(facts[j].named, CanariesOf(facts[..k], e))
    {
      CanariesGrow(facts, j, k, e);
    }
  }

  ghost predicate IsAsNamed(f: Fact) {
    f.Endorsed? && !Unnamed(f.named) ==> f.note.bundleHash == f.named.value
  }

  lemma AchievedIsAsNamed(cfg: Config, sys: Sys, f: Fact, next: Sys)
    requires Achieved(cfg, sys, f, next)
    ensures IsAsNamed(f)
  {
  }

  /** An approval is for the bundle its call names, if it names one. */
  lemma {:induction false} ApprovalHashIsNamed(setup: Setup, turns: seq<Turn>, i: nat)
    requires i < |Run(setup, turns).1|
    ensures IsAsNamed(Run(setup, turns).1[i])
  {
    var cfg, sys, facts, next, f := LastOf(setup, turns);
    if i < |facts| {
      ApprovalHashIsNamed(setup, turns[..|turns| - 1], i);
    } else {
      AchievedIsAsNamed(cfg, sys, f.value, next);
    }
  }

  // ---------- A named hash needs no canary stage ----------

  /** Votes of one environment that all name the same bundle, while it requires this number of approvers. */
  ghost predicate VotesFor(votes: seq<Turn>, environment: string, hash: string, required: int) {
    forall v | v in votes ::
      && v.op.Endorse? && Lower(v.op.environment) == environment && v.op.hash == Some(hash)
      && v.trust.Some? && ConfiguresApprovers(v.trust.value, environment, required)
  }

  function Voters(votes: seq<Turn>): set<string> {
    set v | v in votes && v.op.Endorse? :: v.op.approver
  }

  function PendingApprovers(env: EnvironmentState, hash: string): set<string> {
    Approvers(For(env.pending, hash))
  }

  /**
   * How far these voters have got: nowhere if they were all pending before; else the bundle is approved, or
   * they are all pending and still too few.
   */
  ghost predicate Progress(before: EnvironmentState, env: EnvironmentState, hash: string, required: int,
                           voters: set<string>)
  {
    if voters <= PendingApprovers(before, hash) then env == before
    else
      || env.approved == hash
      || (voters <= PendingApprovers(env, hash) && |PendingApprovers(env, hash) - {""}| < required)
  }

  /** What an approval that names a bundle makes of its environment. */
  function VoteOrNot(env: EnvironmentState, required: int, hash: string, approver: string, reason: string, now: real)
    : EnvironmentState
  {
    if approver in PendingApprovers(env, hash) then env
    else Vote(env, required, hash, approver, reason, now).environment
  }

  lemma VoteProgresses(before: EnvironmentState, env: EnvironmentState, required: int, hash: string, approver: string,
                       reason: string, now: real, voters: set<string>)
    requires Progress(before, env, hash, required, voters)
    ensures Progress(before, VoteOrNot(env, required, hash, approver, reason, now), hash, required, voters + {approver})
  {
    ForMore(env.pending, Approval(hash, approver, reason, now), hash);
  }

  /** An approval over an intact log changes its environment by a vote or not at all, and is no bundle. */
  lemma EndorsementVotes(cfg: Config, sys: Sys, vote: Op)
    requires cfg.trust.Some? && Accepted(cfg.sealing, sys.audit.log)
    requires vote.Endorse? && vote.hash.Some? && vote.hash.value != ""
    ensures var (next, added) := Perform(cfg, sys, vote);
      var name := Lower(vote.environment);
      && (forall f | f in added :: f.Endorsed?)
      && EnvironmentOf(next.state, name) ==
           VoteOrNot(EnvironmentOf(sys.state, name), RequiredFor(cfg.trust.value, name), vote.hash.value, vote.approver,
                     vote.reason, vote.now)
  {
    ApprovalsAreNoted(cfg, sys, vote);
  }

  lemma VotersMore(votes: seq<Turn>, vote: Turn)
    requires vote.op.Endorse?
    ensures Voters(votes + [vote]) == Voters(votes) + {vote.op.approver}
  {
    assert vote in votes + [vote];
  }

  lemma OnlyBundlesAreCanaries(facts: seq<Fact>, added: seq<Fact>)
    requires forall f | f in added :: f.Endorsed?
    ensures forall e :: CanariesOf(facts + added, e) == CanariesOf(facts, e)
  {
  }

  lemma LastVoteProgresses(setup: Setup, turns: seq<Turn>, vote: Turn, before: EnvironmentState, hash: string,
                           required: int, voters: set<string>)
    requires hash != "" && vote.op.Endorse? && VotesFor([vote], Lower(vote.op.environment), hash, required)
    requires Progress(before, EnvironmentOf(Run(setup, turns).0.state, Lower(vote.op.environment)), hash, required,
                      voters)
    ensures Progress(before, EnvironmentOf(Run(setup, turns + [vote]).0.state, Lower(vote.op.environment)), hash,
                     required, voters + {vote.op.approver})
    ensures forall e :: CanariesOf(Run(setup, turns + [vote]).1, e) == CanariesOf(Run(setup, turns).1, e)
  {
    assert vote in [vote];
    SettingsAreUnique(vote.trust.value, Lower(vote.op.environment), required);
    var (sys, facts) := Run(setup, turns);
    var cfg, op := With(setup, vote.trust), vote.op;
    LogRecordsHistory(setup, turns);
    EndorsementVotes(cfg, sys, op);
    VoteProgresses(before, EnvironmentOf(sys.state, Lower(op.environment)), required, hash, op.approver, op.reason,
                   op.now, voters);
    assert (turns + [vote])[..|turns|] == turns;
    OnlyBundlesAreCanaries(facts, Perform(cfg, sys, op).1);
  }

  lemma {:induction false} VotesProgress(setup: Setup, turns: seq<Turn>, votes: seq<Turn>, environment: string,
                                         hash: string, required: int)
    requires hash != "" && VotesFor(votes, environment, hash, required)
    ensures Progress(EnvironmentOf(Run(setup, turns).0.state, environment),
                     EnvironmentOf(Run(setup, turns + votes).0.state, environment), hash, required, Voters(votes))
    ensures forall e :: CanariesOf(Run(setup, turns + votes).1, e) == CanariesOf(Run(setup, turns).1, e)
    decreases |votes|
  {
    if votes == [] {
      assert turns + votes == turns;
    } else {
      var earlier, vote := votes[..|votes| - 1], votes[|votes| - 1];
      assert votes == earlier + [vote];
      assert vote in votes;
      VotesProgress(setup, turns, earlier, environment, hash, required);
      var before := EnvironmentOf(Run(setup, turns).0.state, environment);
      LastVoteProgresses(setup, turns + earlier, vote, before, hash, required, Voters(earlier));
      assert turns + earlier + [vote] == turns + votes;
      VotersMore(earlier, vote);
    }
  }

  /** The bundle was approved before the votes, or they bring in an approver who was not pending for it. */
  ghost predicate VotesMatter(env: EnvironmentState, hash: string, votes: seq<Turn>) {
    env.approved == hash || !(Voters(votes) <= PendingApprovers(env, hash))
  }

  /**
   * After any history, enough named approvers get any bundle hash approved that they name, unless every
   * one of them has an approval of it pending already, which only a lowered requirement makes possible.
   * The votes bring no bundle into a canary stage, so the hash need never have been in one.
   */
  lemma NamedApprovalNeedsNoCanary(setup: Setup, turns: seq<Turn>, votes: seq<Turn>, environment: string, hash: string,
                                   required: int)
    requires hash != "" && required >= 1 && VotesFor(votes, environment, hash, required)
    requires |Voters(votes) - {""}| >= required
    ensures var before, after := EnvironmentOf(Run(setup, turns).0.state, environment),
                                 EnvironmentOf(Run(setup, turns + votes).0.state, environment);
      && (after.approved == hash <==> VotesMatter(before, hash, votes))
      && (AlwaysRequires(turns, environment, required) ==> after.approved == hash)
    ensures CanariesOf(Run(setup, turns + votes).1, environment) == CanariesOf(Run(setup, turns).1, environment)
  {
    VotesProgress(setup, turns, votes, environment, hash, required);
    var before, after := EnvironmentOf(Run(setup, turns).0.state, environment),
                         EnvironmentOf(Run(setup, turns + votes).0.state, environment);
    EnoughAreApproved(before, after, hash, required, Voters(votes));
    if AlwaysRequires(turns, environment, required) {
      RunIsExact(setup, turns, environment, required);
      assert Undecided(before.pending, required);
      if Voters(votes) <= PendingApprovers(before, hash) {
        SubsetIsSmaller(Voters(votes) - {""}, PendingApprovers(before, hash) - {""});
        assert false;
      }
    }
  }

  lemma EnoughAreApproved(before: EnvironmentState, after: EnvironmentState, hash: string, required: int,
                          voters: set<string>)
    requires Progress(before, after, hash, required, voters) && |voters - {""}| >= required
    ensures after.approved == hash <==> before.approved == hash || !(voters <= PendingApprovers(before, hash))
  {
    if voters <= PendingApprovers(after, hash) {
      SubsetIsSmaller(voters - {""}, PendingApprovers(after, hash) - {""});
    }
  }

  /**
   * The gate then opens for that hash: exactly when a healthy global bundle that names it as its source is
   * accepted. Whether the source has been a canary bundle does not enter.
   */
  lemma NamedApprovalOpensGate(setup: Setup, turns: seq<Turn>, votes: seq<Turn>, hash: string, required: int,
                               trust: TrustStore, b: Bundle)
    requires hash != "" && required >= 1 && b.metadata.Some?
    requires VotesFor(votes, TargetOf(b.metadata.value), hash, required) && |Voters(votes) - {""}| >= required
    requires Said(b.metadata.value.stage, "global") == "global"
    requires b.metadata.value.gate.Some? && b.metadata.value.gate.value.source == Some(hash)
    requires Healthy(b.metadata.value.gate.value, trust, TargetOf(b.metadata.value))
    ensures var environment, state := TargetOf(b.metadata.value), Run(setup, turns + votes).0.state;
      Judge(setup.crypto, Some(trust), state, b).Cleared? <==>
        && NewAndSigned(setup.crypto, Some(trust), state, b)
        && (NeedsApproval(Some(trust), b, environment) ==>
              VotesMatter(EnvironmentOf(Run(setup, turns).0.state, environment), hash, votes))
  {
    NamedApprovalNeedsNoCanary(setup, turns, votes, TargetOf(b.metadata.value), hash, required);
    AcceptedIff(setup.crypto, Some(trust), Run(setup, turns + votes).0.state, b);
  }
}
