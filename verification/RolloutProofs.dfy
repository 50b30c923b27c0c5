/** Properties of whole histories of bundle submissions and canary approvals, in any interleaving. */
module RolloutProofs {
  import opened Options
  import opened ApprovalAudit
  import opened BundleUpdater
  import opened TrustProofs

  datatype Op =
    | Submit(bundle: Bundle, now: real)
    | Endorse(hash: Option<string>, environment: string, approver: string, reason: string, now: real)

  /** An operation, and the trust store that it finds. */
  datatype Turn = Turn(op: Op, trust: Option<TrustStore>)

  /**
   * What an operation achieved: a bundle in force, and whether it came through a gate; or an approval, with
   * the bundle hash that its call named and the number of approvers that were required.
   */
  datatype Fact =
    | Applied(stage: Stage, environment: string, version: int, hash: string, bundle: Bundle, gated: bool, at: real)
    | Endorsed(note: Note, approvers: set<string>, named: Option<string>, required: int)

  /** A global bundle needs an approved source if the policy of its environment or its own gate says so. */
  predicate NeedsApproval(trust: Option<TrustStore>, b: Bundle, environment: string) {
    || (trust.Some? && RequiresCanary(trust.value, environment))
    || (b.metadata.Some? && b.metadata.value.gate.Some? && b.metadata.value.gate.value.required)
  }

  const START := Sys(NEW_STATE, NO_FILES, AuditState([], 0))

  function Perform(cfg: Config, sys: Sys, op: Op): (Sys, seq<Fact>) {
    match op
    case Submit(b, now) =>
      var (next, v) := Apply(cfg, sys, b, now);
      (next, if v.Cleared? then [Applied(v.stage, v.environment, v.version, v.hash, b,
                                        v.stage == Global && NeedsApproval(cfg.trust, b, v.environment), now)] else [])
    case Endorse(hash, environment, approver, reason, now) =>
      var (next, result) := Approve(cfg, sys, hash, environment, approver, reason, now);
      var name := Lower(environment);
      (next,
       if result.Noted? then
         [Endorsed(Note(now, name, CandidateFor(EnvironmentOf(sys.state, name), hash), approver, reason, result.status),
                   result.approvers, hash, result.required)]
       else [])
  }

  function Run(setup: Setup, turns: seq<Turn>): (Sys, seq<Fact>) {
    if turns == [] then (START, [])
    else
      var n := |turns| - 1;
      var (sys, facts) := Run(setup, turns[..n]);
      var (next, added) := Perform(With(setup, turns[n].trust), sys, turns[n].op);
      (next, facts + added)
  }

  lemma Extended<T>(items: seq<T>, item: T)
    ensures (items + [item])[..|items|] == items && items + [] == items
  {
  }

  lemma PrefixOfExtended<T>(items: seq<T>, item: T, k: nat)
    requires k <= |items| + 1
    ensures (items + [item])[..k] == if k <= |items| then items[..k] else items + [item]
  {
  }

  // ---------- What an operation does, by the fact it achieves ----------

  function RequiredFor(trust: TrustStore, environment: string): int {
    PolicyFor(trust, environment).minApprovers
  }

  function BallotOf(trust: TrustStore, state: State, note: Note): Ballot {
    Vote(EnvironmentOf(state, note.environment), RequiredFor(trust, note.environment), note.bundleHash, note.approver,
         note.reason, note.ts)
  }

  ghost predicate Voted(cfg: Config, sys: Sys, f: Fact, next: Sys) {
    && f.Endorsed? && cfg.trust.Some? && f.note.bundleHash != ""
    && f.note.bundleHash == CandidateFor(EnvironmentOf(sys.state, f.note.environment), f.named)
    && var ballot := BallotOf(cfg.trust.value, sys.state, f.note);
    && f.note.status == ballot.status && f.approvers == ballot.approvers
    && f.required == RequiredFor(cfg.trust.value, f.note.environment)
    && next.state == sys.state.(environments := sys.state.environments[f.note.environment := ballot.environment])
    && next.files == sys.files
    && next.audit.log == sys.audit.log + [NewEntry(cfg.sealing, sys.audit.log, f.note)]
  }

  /** While the log is accepted, an approval either does nothing or is noted in state and log alike. */
  lemma EndorseVotes(cfg: Config, sys: Sys, op: Op)
    requires op.Endorse? && Accepted(cfg.sealing, sys.audit.log)
    ensures var (next, added) := Perform(cfg, sys, op);
      (added == [] && next == sys) || (|added| == 1 && Voted(cfg, sys, added[0], next))
  {
    ApprovalsAreNoted(cfg, sys, op);
    if Perform(cfg, sys, op).1 != [] {
      NotedVotes(cfg, sys, op);
    }
  }

  lemma NotedVotes(cfg: Config, sys: Sys, op: Op)
    requires op.Endorse? && Perform(cfg, sys, op).1 != []
    ensures var (next, added) := Perform(cfg, sys, op); |added| == 1 && Voted(cfg, sys, added[0], next)
  {
    var name := Lower(op.environment);
    var candidate := CandidateFor(EnvironmentOf(sys.state, name), op.hash);
    var (next, result) := Approve(cfg, sys, op.hash, op.environment, op.approver, op.reason, op.now);
    var note := Note(op.now, name, candidate, op.approver, op.reason, result.status);
    var ballot := BallotOf(cfg.trust.value, sys.state, note);
    assert result.approvers == ballot.approvers && result.status == ballot.status;
    assert Voted(cfg, sys, Endorsed(note, result.approvers, op.hash, result.required), next);
  }

  /** The approval gets as far as a vote: it is for some bundle, which its approver has not approved yet. */
  predicate Casts(cfg: Config, sys: Sys, op: Op)
    requires op.Endorse?
  {
    var env := EnvironmentOf(sys.state, Lower(op.environment));
    var candidate := CandidateFor(env, op.hash);
    cfg.trust.Some? && candidate != "" && op.approver !in Approvers(For(env.pending, candidate))
  }

  function ApproveBy(cfg: Config, sys: Sys, op: Op): (Sys, ApprovalResult)
    requires op.Endorse?
  {
    Approve(cfg, sys, op.hash, op.environment, op.approver, op.reason, op.now)
  }

  /** The log gets verified while it takes its next record: before the record is written, or after it. */
  predicate VerifiedBefore(auditing: AuditConfig, audit: AuditState) {
    auditing.verifyBeforeAppend && audit.count > 0
  }

  predicate VerifiedAfter(auditing: AuditConfig, audit: AuditState) {
    auditing.verifyEvery <= 1 || (audit.count + 1) % auditing.verifyEvery == 0
  }

  /** The audit log refuses a vote exactly if it was tampered with, and its verification is due. */
  lemma AuditFailsIff(cfg: Config, sys: Sys, op: Op)
    requires op.Endorse?
    ensures ApproveBy(cfg, sys, op).1.AuditFailed? <==>
      && Casts(cfg, sys, op) && !Accepted(cfg.sealing, sys.audit.log)
      && (VerifiedBefore(cfg.auditing, sys.audit) || VerifiedAfter(cfg.auditing, sys.audit))
  {
    if Casts(cfg, sys, op) {
      var env := EnvironmentOf(sys.state, Lower(op.environment));
      var candidate := CandidateFor(env, op.hash);
      var ballot := Vote(env, RequiredFor(cfg.trust.value, Lower(op.environment)), candidate, op.approver, op.reason,
                         op.now);
      var entry := NewEntry(cfg.sealing, sys.audit.log,
                            Note(op.now, Lower(op.environment), candidate, op.approver, op.reason, ballot.status));
      RejectionIsInherited(cfg.sealing, sys.audit.log, entry);
      if Accepted(cfg.sealing, sys.audit.log) {
        AppendKeepsAccepted(cfg.sealing, sys.audit.log, entry.body.note);
      }
    }
  }

  /**
   * A vote counts even if the audit log refuses it: the state file is written before the log, and whatever
   * the log holds, the state that a call leaves is the one it leaves over any intact log, where the call
   * succeeds. After a failed call the log has not grown at all, if it was verified first, or by one record.
   */
  lemma RefusedVoteStaysInForce(cfg: Config, sys: Sys, op: Op, intact: AuditState)
    requires op.Endorse? && Accepted(cfg.sealing, intact.log)
    ensures var (next, result) := ApproveBy(cfg, sys, op);
      var (other, noted) := ApproveBy(cfg, sys.(audit := intact), op);
      && next.state == other.state && next.files == sys.files
      && (result.AuditFailed? ==>
            && noted.Noted?
            && (noted.status == Approved ==> EnvironmentOf(next.state, Lower(op.environment)).approved ==
                                             CandidateFor(EnvironmentOf(sys.state, Lower(op.environment)), op.hash))
            && if VerifiedBefore(cfg.auditing, sys.audit) then next.audit == sys.audit
               else |next.audit.log| == |sys.audit.log| + 1 && sys.audit.log <= next.audit.log)
  {
    AuditFailsIff(cfg, sys, op);
    AuditFailsIff(cfg, sys.(audit := intact), op);
  }

  /** Over an intact log, every vote is noted; what does not get as far as a vote changes nothing, whatever the log. */
  lemma ApprovalsAreNoted(cfg: Config, sys: Sys, op: Op)
    requires op.Endorse?
    ensures Accepted(cfg.sealing, sys.audit.log) ==> (Perform(cfg, sys, op).1 != [] <==> Casts(cfg, sys, op))
    ensures !Casts(cfg, sys, op) ==> Perform(cfg, sys, op) == (sys, [])
    ensures var result, env := ApproveBy(cfg, sys, op).1, EnvironmentOf(sys.state, Lower(op.environment));
      && (result.NoTrustStore? <==> cfg.trust.None?)
      && (result.NoCandidate? <==> cfg.trust.Some? && CandidateFor(env, op.hash) == "")
  {
    AuditFailsIff(cfg, sys, op);
  }

  /** The distinct, named approvers of a bundle: those pending for it, and the one who votes. */
  function NamedApprovers(env: EnvironmentState, hash: string, voter: string): set<string> {
    ((set a | a in env.pending && a.bundleHash == hash :: a.approver) + {voter}) - {""}
  }

  /**
   * A vote over an intact log records what was called for, in the environment it was called for, and lists
   * every named approver so far. It completes the approval exactly if these are as many as the trust store
   * configures.
   */
  lemma VoteCompletesIff(cfg: Config, sys: Sys, op: Op, n: int)
    requires op.Endorse? && Accepted(cfg.sealing, sys.audit.log) && Casts(cfg, sys, op)
    requires ConfiguresApprovers(cfg.trust.value, Lower(op.environment), n)
    ensures var (next, added) := Perform(cfg, sys, op);
      var env := EnvironmentOf(sys.state, Lower(op.environment));
      && |added| == 1 && added[0].Endorsed? && added[0].required == n
      && var note := added[0].note;
      && note.ts == op.now && note.environment == Lower(op.environment)
      && note.approver == op.approver && note.reason == op.reason
      && note.bundleHash != "" && (op.hash.Some? && op.hash.value != "" ==> note.bundleHash == op.hash.value)
      && added[0].approvers == NamedApprovers(env, note.bundleHash, op.approver)
      && (note.status == Approved <==> |added[0].approvers| >= n)
      && EnvironmentOf(next.state, note.environment).approved ==
           (if note.status == Approved then note.bundleHash else env.approved)
      && next.audit.log == sys.audit.log + [NewEntry(cfg.sealing, sys.audit.log, note)]
  {
    ApprovalsAreNoted(cfg, sys, op);
    NotedVotes(cfg, sys, op);
    NoteIsOfCall(cfg, sys, op);
    SettingsAreUnique(cfg.trust.value, Lower(op.environment), n);
    var f := Perform(cfg, sys, op).1[0];
    BallotCounts(EnvironmentOf(sys.state, Lower(op.environment)), n, f.note);
  }

  lemma NoteIsOfCall(cfg: Config, sys: Sys, op: Op)
    requires op.Endorse? && Perform(cfg, sys, op).1 != []
    ensures var f := Perform(cfg, sys, op).1[0];
      && f.Endorsed? && f.note.ts == op.now && f.note.environment == Lower(op.environment)
      && f.note.approver == op.approver && f.note.reason == op.reason && f.named == op.hash
  {
  }

  lemma BallotCounts(env: EnvironmentState, required: int, note: Note)
    ensures var ballot := Vote(env, required, note.bundleHash, note.approver, note.reason, note.ts);
      && ballot.approvers == NamedApprovers(env, note.bundleHash, note.approver)
      && (ballot.status == Approved <==> |ballot.approvers| >= required)
      && ballot.environment.approved == if ballot.status == Approved then note.bundleHash else env.approved
  {
    var hash := note.bundleHash;
    ForMore(env.pending, Approval(hash, note.approver, note.reason, note.ts), hash);
    forall a
      ensures a in For(env.pending, hash) <==> a in env.pending && a.bundleHash == hash
    {
      ForSelects(env.pending, hash, a);
    }
    assert Approvers(For(env.pending, hash)) == set a | a in env.pending && a.bundleHash == hash :: a.approver;
  }

  /** The bundle took force as what its metadata say: version, environment, and stage. */
  ghost predicate AsDeclared(f: Fact, m: Metadata)
    requires f.Applied?
  {
    && m.version == Some(f.version) && f.environment == TargetOf(m)
    && Said(m.stage, "global") == match f.stage case Canary => "canary" case Global => "global"
  }

  ghost predicate TookForce(cfg: Config, sys: Sys, f: Fact, next: Sys) {
    && f.Applied? && cfg.trust.Some?
    && f.bundle.metadata.Some? && f.bundle.payload.Some?
    && AsDeclared(f, f.bundle.metadata.value) && f.version > sys.state.lastVersion
    && f.hash == BundleHash(cfg.crypto, f.bundle)
    && f.gated == (f.stage == Global && NeedsApproval(cfg.trust, f.bundle, f.environment))
    && (f.stage == Global ==>
          GateError(f.bundle.metadata.value.gate, EnvironmentOf(sys.state, f.environment),
                    PolicyFor(cfg.trust.value, f.environment)) == None)
    && next.state == UpdatedState(cfg.crypto, sys.state, Cleared(f.stage, f.environment, f.version, f.hash), f.at)
    && next.files == WriteFiles(sys.files, f.bundle.payload.value, f.stage)
    && next.audit == sys.audit
  }

  /** A submission either changes nothing at all or brings its bundle into force. */
  lemma SubmitTakesForce(cfg: Config, sys: Sys, b: Bundle, now: real)
    ensures var (next, added) := Perform(cfg, sys, Submit(b, now));
      (added == [] && next == sys) ||
      (|added| == 1 && TookForce(cfg, sys, added[0], next) && added[0].bundle == b && added[0].at == now)
  {
    if b.metadata.Some? && cfg.trust.Some? {
      PolicyIsConfigured(cfg.trust.value, TargetOf(b.metadata.value));
    }
  }

  /** The two ways in which an operation leaves a fact behind. */
  ghost predicate Achieved(cfg: Config, sys: Sys, f: Fact, next: Sys) {
    Voted(cfg, sys, f, next) || TookForce(cfg, sys, f, next)
  }

  lemma PerformAchieves(cfg: Config, sys: Sys, op: Op)
    requires Accepted(cfg.sealing, sys.audit.log)
    ensures var (next, added) := Perform(cfg, sys, op);
      (added == [] && next == sys) || (|added| == 1 && Achieved(cfg, sys, added[0], next))
  {
    match op
    case Submit(b, now) => SubmitTakesForce(cfg, sys, b, now);
    case Endorse(_, _, _, _, _) => EndorseVotes(cfg, sys, op);
  }

  lemma LastStep(setup: Setup, turns: seq<Turn>)
    returns (cfg: Config, sys: Sys, facts: seq<Fact>, next: Sys, f: Option<Fact>)
    requires turns != [] && Accepted(setup.sealing, Run(setup, turns[..|turns| - 1]).0.audit.log)
    ensures cfg == With(setup, turns[|turns| - 1].trust) && Run(setup, turns[..|turns| - 1]) == (sys, facts)
    ensures if f.None? then Run(setup, turns) == (sys, facts)
            else Run(setup, turns) == (next, facts + [f.value]) && Achieved(cfg, sys, f.value, next)
  {
    var n := |turns| - 1;
    var run := Run(setup, turns[..n]);
    cfg, sys, facts := With(setup, turns[n].trust), run.0, run.1;
    PerformAchieves(cfg, sys, turns[n].op);
    var (then_, added) := Perform(cfg, sys, turns[n].op);
    next := then_;
    assert facts + [] == facts;
    f := if added == [] then None else Some(added[0]);
    assert added != [] ==> added == [added[0]];
  }

  // ---------- The approval log ----------

  function NotesIn(facts: seq<Fact>): seq<Note> {
    if facts == [] then []
    else
      var n := |facts| - 1;
      NotesIn(facts[..n]) + if facts[n].Endorsed? then [facts[n].note] else []
  }

  function NotesOf(log: seq<Entry>): seq<Note> {
    if log == [] then [] else NotesOf(log[..|log| - 1]) + [log[|log| - 1].body.note]
  }

  ghost predicate LogKept(sealing: Sealing, sys: Sys, facts: seq<Fact>) {
    Accepted(sealing, sys.audit.log) && NotesOf(sys.audit.log) == NotesIn(facts)
  }

  lemma AchievedKeepsLog(cfg: Config, sys: Sys, facts: seq<Fact>, f: Fact, next: Sys)
    requires LogKept(cfg.sealing, sys, facts) && Achieved(cfg, sys, f, next)
    ensures LogKept(cfg.sealing, next, facts + [f])
  {
    Extended(facts, f);
    if f.Endorsed? {
      AppendKeepsAccepted(cfg.sealing, sys.audit.log, f.note);
      Extended(sys.audit.log, NewEntry(cfg.sealing, sys.audit.log, f.note));
    }
  }

  /** The log is never rejected, and it records exactly the approvals that were made, in order. */
  lemma {:induction false} LogRecordsHistory(setup: Setup, turns: seq<Turn>)
    ensures var (sys, facts) := Run(setup, turns); LogKept(setup.sealing, sys, facts)
  {
    if turns != [] {
      LogRecordsHistory(setup, turns[..|turns| - 1]);
      var cfg, sys, facts, next, f := LastStep(setup, turns);
      if f.Some? {
        AchievedKeepsLog(cfg, sys, facts, f.value, next);
      }
    }
  }

  /** Takes a history apart at its last operation. */
  lemma LastOf(setup: Setup, turns: seq<Turn>)
    returns (cfg: Config, sys: Sys, facts: seq<Fact>, next: Sys, f: Option<Fact>)
    requires turns != []
    ensures cfg == With(setup, turns[|turns| - 1].trust)
    ensures Run(setup, turns[..|turns| - 1]) == (sys, facts) && LogKept(setup.sealing, sys, facts)
    ensures if f.None? then Run(setup, turns) == (sys, facts)
            else Run(setup, turns) == (next, facts + [f.value]) && Achieved(cfg, sys, f.value, next)
  {
    LogRecordsHistory(setup, turns[..|turns| - 1]);
    cfg, sys, facts, next, f := LastStep(setup, turns);
  }

  // ---------- The state file is a fold of the log ----------

  ghost predicate ApprovedIn(notes: seq<Note>, environment: string, hash: string) {
    exists n :: n in notes && n.environment == environment && n.bundleHash == hash && n.status == Approved
  }

  /** What a record leaves pending, given the records after it. */
  ghost function Surviving(n: Note, later: seq<Note>, environment: string): seq<Approval> {
    if n.environment == environment && n.status.Pending? && !ApprovedIn(later, environment, n.bundleHash)
    then [Approval(n.bundleHash, n.approver, n.reason, n.ts)] else []
  }

  /** In order, the pending records that no approved record of the same environment and bundle follows. */
  ghost function StillPending(notes: seq<Note>, environment: string): seq<Approval> {
    if notes == [] then []
    else Surviving(notes[0], notes[1..], environment) + StillPending(notes[1..], environment)
  }

  lemma {:induction false} ExceptConcat(a: seq<Approval>, b: seq<Approval>, hash: string)
    ensures Except(a + b, hash) == Except(a, hash) + Except(b, hash)
  {
    if b == [] {
      assert a + b == a;
    } else {
      var n := |b| - 1;
      ExceptConcat(a, b[..n], hash);
      assert (a + b)[..|a + b| - 1] == a + b[..n];
    }
  }

  lemma SurvivingMore(first: Note, later: seq<Note>, n: Note, environment: string)
    ensures Surviving(first, later + [n], environment) ==
      if n.environment == environment && n.status == Approved
      then Except(Surviving(first, later, environment), n.bundleHash)
      else Surviving(first, later, environment)
  {
    assert forall m :: m in later + [n] <==> m in later || m == n;
    var a := Approval(first.bundleHash, first.approver, first.reason, first.ts);
    assert Except([a], n.bundleHash) == if a.bundleHash == n.bundleHash then [] else [a];
  }

  /** What one more record does to the pending list of an environment. */
  function AfterRecord(pending: seq<Approval>, n: Note, environment: string): seq<Approval> {
    if n.environment != environment then pending
    else if n.status == Approved then Except(pending, n.bundleHash)
    else pending + [Approval(n.bundleHash, n.approver, n.reason, n.ts)]
  }

  lemma AfterRecordConcat(first: Note, later: seq<Note>, pending: seq<Approval>, n: Note, environment: string)
    ensures Surviving(first, later + [n], environment) + AfterRecord(pending, n, environment) ==
      AfterRecord(Surviving(first, later, environment) + pending, n, environment)
  {
    SurvivingMore(first, later, n, environment);
    ExceptConcat(Surviving(first, later, environment), pending, n.bundleHash);
  }

  lemma {:induction false} StillPendingMore(notes: seq<Note>, n: Note, environment: string)
    ensures StillPending(notes + [n], environment) == AfterRecord(StillPending(notes, environment), n, environment)
  {
    if notes == [] {
      assert notes + [n] == [n] && [n][1..] == [];
    } else {
      StillPendingMore(notes[1..], n, environment);
      assert (notes + [n])[0] == notes[0] && (notes + [n])[1..] == notes[1..] + [n];
      AfterRecordConcat(notes[0], notes[1..], StillPending(notes[1..], environment), n, environment);
    }
  }

  /** The hash of the last approved record since the last global apply, or the empty text. */
  function ApprovedOf(facts: seq<Fact>, environment: string): string {
    if facts == [] then ""
    else
      var n := |facts| - 1;
      match facts[n]
      case Endorsed(note, _, _, _) =>
        if note.environment == environment && note.status == Approved then note.bundleHash
        else ApprovedOf(facts[..n], environment)
      case Applied(stage, e, _, _, _, _, _) =>
        if stage == Global && e == environment then "" else ApprovedOf(facts[..n], environment)
  }

  ghost predicate Folded(state: State, facts: seq<Fact>) {
    forall e ::
      && EnvironmentOf(state, e).pending == StillPending(NotesIn(facts), e)
      && EnvironmentOf(state, e).approved == ApprovedOf(facts, e)
  }

  /** What a fact does to the pending list and the approved hash of an environment. */
  function PendingAfter(pending: seq<Approval>, f: Fact, environment: string): seq<Approval> {
    if f.Applied? then pending else AfterRecord(pending, f.note, environment)
  }

  function ApprovedAfter(approved: string, f: Fact, environment: string): string {
    if f.Applied? then if f.stage == Global && f.environment == environment then "" else approved
    else if f.note.environment == environment && f.note.status == Approved then f.note.bundleHash else approved
  }

  lemma FactFolds(facts: seq<Fact>, f: Fact, environment: string)
    ensures StillPending(NotesIn(facts + [f]), environment) ==
      PendingAfter(StillPending(NotesIn(facts), environment), f, environment)
    ensures ApprovedOf(facts + [f], environment) == ApprovedAfter(ApprovedOf(facts, environment), f, environment)
  {
    Extended(facts, f);
    if f.Endorsed? {
      StillPendingMore(NotesIn(facts), f.note, environment);
    } else {
      assert NotesIn(facts) + [] == NotesIn(facts);
    }
  }

  ghost predicate Moves(before: State, f: Fact, after: State) {
    forall e ::
      var b, a := EnvironmentOf(before, e), EnvironmentOf(after, e);
      a.pending == PendingAfter(b.pending, f, e) && a.approved == ApprovedAfter(b.approved, f, e)
  }

  lemma VoteMoves(env: EnvironmentState, required: int, note: Note)
    ensures var ballot := Vote(env, required, note.bundleHash, note.approver, note.reason, note.ts);
      ballot.status == note.status ==>
        && ballot.environment.pending == PendingAfter(env.pending, Endorsed(note, {}, None, 0), note.environment)
        && ballot.environment.approved == ApprovedAfter(env.approved, Endorsed(note, {}, None, 0), note.environment)
  {
    Extended(env.pending, Approval(note.bundleHash, note.approver, note.reason, note.ts));
    assert Except(env.pending, note.bundleHash) + [] == Except(env.pending, note.bundleHash);
  }

  /** Replacing one environment moves the state as the fact about that environment says. */
  lemma ReplacementMoves(before: State, f: Fact, env: EnvironmentState, after: State)
    requires f.Endorsed? && after == before.(environments := before.environments[f.note.environment := env])
    requires env.pending == PendingAfter(EnvironmentOf(before, f.note.environment).pending, f, f.note.environment)
    requires env.approved == ApprovedAfter(EnvironmentOf(before, f.note.environment).approved, f, f.note.environment)
    ensures Moves(before, f, after)
  {
  }

  lemma VotedMoves(cfg: Config, sys: Sys, f: Fact, next: Sys)
    requires Voted(cfg, sys, f, next)
    ensures Moves(sys.state, f, next.state)
  {
    VoteMoves(EnvironmentOf(sys.state, f.note.environment), RequiredFor(cfg.trust.value, f.note.environment), f.note);
    ReplacementMoves(sys.state, f, BallotOf(cfg.trust.value, sys.state, f.note).environment, next.state);
  }

  lemma ForceMoves(cfg: Config, sys: Sys, f: Fact, next: Sys)
    requires TookForce(cfg, sys, f, next)
    ensures Moves(sys.state, f, next.state)
  {
  }

  lemma AchievedMoves(cfg: Config, sys: Sys, f: Fact, next: Sys)
    requires Achieved(cfg, sys, f, next)
    ensures Moves(sys.state, f, next.state)
  {
    if f.Endorsed? {
      VotedMoves(cfg, sys, f, next);
    } else {
      ForceMoves(cfg, sys, f, next);
    }
  }

  lemma MovesFold(before: State, facts: seq<Fact>, f: Fact, after: State)
    requires Folded(before, facts) && Moves(before, f, after)
    ensures Folded(after, facts + [f])
  {
    forall e
      ensures EnvironmentOf(after, e).pending == StillPending(NotesIn(facts + [f]), e)
      ensures EnvironmentOf(after, e).approved == ApprovedOf(facts + [f], e)
    {
      assert EnvironmentOf(before, e).pending == StillPending(NotesIn(facts), e);
      FactFolds(facts, f, e);
    }
  }

  lemma {:induction false} RunFolds(setup: Setup, turns: seq<Turn>)
    ensures var (sys, facts) := Run(setup, turns); Folded(sys.state, facts)
  {
    if turns != [] {
      RunFolds(setup, turns[..|turns| - 1]);
      var cfg, sys, facts, next, f := LastOf(setup, turns);
      if f.Some? {
        AchievedMoves(cfg, sys, f.value, next);
        MovesFold(sys.state, facts, f.value, next.state);
      }
    }
  }

  /**
   * After any interleaving of submissions and approvals across environments, whatever trust stores they
   * found, the state file says what the approval log says: per environment, the pending approvals are the
   * log's pending records that no approved record of the same bundle follows, and the approved hash is that
   * of the last approved record since the environment's last global apply.
   */
  lemma StateIsFoldOfLog(setup: Setup, turns: seq<Turn>, environment: string)
    ensures var (sys, facts) := Run(setup, turns);
      && Accepted(setup.sealing, sys.audit.log)
      && EnvironmentOf(sys.state, environment).pending == StillPending(NotesOf(sys.audit.log), environment)
      && NotesOf(sys.audit.log) == NotesIn(facts)
      && EnvironmentOf(sys.state, environment).approved == ApprovedOf(facts, environment)
  {
    RunFolds(setup, turns);
    LogRecordsHistory(setup, turns);
  }

  /** The time and the approvers of the last approval since the last global apply, if there is one. */
  function CreditOf(facts: seq<Fact>, environment: string): (Option<real>, set<string>) {
    if facts == [] then (None, {})
    else
      var f := facts[|facts| - 1];
      if IsApproval(f, environment) then (Some(f.note.ts), f.approvers)
      else if IsGlobal(f, environment) then (None, {})
      else CreditOf(facts[..|facts| - 1], environment)
  }

  lemma VotedCredits(cfg: Config, sys: Sys, f: Fact, next: Sys, environment: string)
    requires Voted(cfg, sys, f, next)
    ensures var before, after := EnvironmentOf(sys.state, environment), EnvironmentOf(next.state, environment);
      (after.approvedAt, after.approvedBy) ==
        if IsApproval(f, environment) then (Some(f.note.ts), f.approvers) else (before.approvedAt, before.approvedBy)
  {
  }

  lemma ForceCredits(cfg: Config, sys: Sys, f: Fact, next: Sys, environment: string)
    requires TookForce(cfg, sys, f, next)
    ensures var before, after := EnvironmentOf(sys.state, environment), EnvironmentOf(next.state, environment);
      (after.approvedAt, after.approvedBy) ==
        if IsGlobal(f, environment) then (None, {}) else (before.approvedAt, before.approvedBy)
  {
  }

  lemma CreditMore(facts: seq<Fact>, f: Fact, environment: string)
    ensures CreditOf(facts + [f], environment) ==
      if IsApproval(f, environment) then (Some(f.note.ts), f.approvers)
      else if IsGlobal(f, environment) then (None, {}) else CreditOf(facts, environment)
  {
    Extended(facts, f);
  }

  /** The state file says when and by whom the standing approval of an environment was given. */
  lemma {:induction false} ApprovalIsCredited(setup: Setup, turns: seq<Turn>, environment: string)
    ensures var (sys, facts) := Run(setup, turns);
      var env := EnvironmentOf(sys.state, environment);
      (env.approvedAt, env.approvedBy) == CreditOf(facts, environment)
  {
    if turns != [] {
      ApprovalIsCredited(setup, turns[..|turns| - 1], environment);
      var cfg, sys, facts, next, f := LastOf(setup, turns);
      if f.Some? {
        CreditMore(facts, f.value, environment);
        if f.value.Endorsed? {
          VotedCredits(cfg, sys, f.value, next, environment);
        } else {
          ForceCredits(cfg, sys, f.value, next, environment);
        }
      }
    }
  }

  // ---------- The one-shot gate ----------

  /** No bundle has gathered enough approvers yet: the approval that completes it clears its pending list. */
  ghost predicate Undecided(pending: seq<Approval>, required: int) {
    forall hash :: |Approvers(For(pending, hash)) - {""}| < required
  }

  lemma {:induction false} ForExcept(pending: seq<Approval>, gone: string, hash: string)
    ensures For(Except(pending, gone), hash) == if hash == gone then [] else For(pending, hash)
  {
    if pending != [] {
      var n := |pending| - 1;
      ForExcept(pending[..n], gone, hash);
      Extended(Except(pending[..n], gone), pending[n]);
      Extended(For(pending[..n], hash), pending[n]);
    }
  }

  lemma ForMore(pending: seq<Approval>, a: Approval, hash: string)
    ensures For(pending + [a], hash) == For(pending, hash) + if a.bundleHash == hash then [a] else []
    ensures Approvers(For(pending + [a], hash)) ==
      Approvers(For(pending, hash)) + if a.bundleHash == hash then {a.approver} else {}
  {
    Extended(pending, a);
  }

  lemma OneMoreAtMost(s: set<string>, t: set<string>, item: string)
    requires t == s + {item}
    ensures |t - {""}| <= |s - {""}| + 1
  {
    assert t - {""} <= (s - {""}) + {item};
    SubsetIsSmaller(t - {""}, (s - {""}) + {item});
  }

  /** The completing vote is cast by exactly the required number of distinct, named approvers. */
  lemma VoteIsExact(env: EnvironmentState, required: int, candidate: string, approver: string, reason: string,
                    now: real)
    requires required >= 1 && Undecided(env.pending, required)
    ensures var ballot := Vote(env, required, candidate, approver, reason, now);
      && Undecided(ballot.environment.pending, required)
      && "" !in ballot.approvers
      && (ballot.status == Approved ==> |ballot.approvers| == required)
  {
    var a := Approval(candidate, approver, reason, now);
    var pending, ballot := env.pending + [a], Vote(env, required, candidate, approver, reason, now);
    ForMore(env.pending, a, candidate);
    OneMoreAtMost(Approvers(For(env.pending, candidate)), Approvers(For(pending, candidate)), approver);
    assert |Approvers(For(env.pending, candidate)) - {""}| < required;
    forall hash
      ensures |Approvers(For(ballot.environment.pending, hash)) - {""}| < required
    {
      assert |Approvers(For(env.pending, hash)) - {""}| < required;
      ForMore(env.pending, a, hash);
      ForExcept(pending, candidate, hash);
      assert Approvers([]) - {""} == {};
    }
  }

  /** An approval that lists enough distinct, named approvers for its own time, and is for some bundle. */
  ghost predicate Sufficient(f: Fact) {
    f.Endorsed? ==>
      && "" !in f.approvers && f.note.bundleHash != ""
      && (f.note.status == Approved ==> |f.approvers| >= f.required)
  }

  lemma {:induction false} ApprovalsAreSufficient(setup: Setup, turns: seq<Turn>)
    ensures forall f | f in Run(setup, turns).1 :: Sufficient(f)
  {
    if turns != [] {
      ApprovalsAreSufficient(setup, turns[..|turns| - 1]);
      var cfg, sys, facts, next, f := LastOf(setup, turns);
    }
  }

  /** The number of approvers that an environment requires, if it is the same in every trust store found. */
  ghost predicate AlwaysRequires(turns: seq<Turn>, environment: string, required: int) {
    forall t | t in turns && t.trust.Some? :: ConfiguresApprovers(t.trust.value, environment, required)
  }

  /** Every completed approval of the environment so far lists exactly the required number of approvers. */
  ghost predicate ExactApprovals(facts: seq<Fact>, environment: string, required: int) {
    forall f | f in facts && IsApproval(f, environment) :: |f.approvers| == required == f.required
  }

  lemma AchievedIsExact(cfg: Config, sys: Sys, f: Fact, next: Sys, environment: string, required: int)
    requires cfg.trust.Some? ==> ConfiguresApprovers(cfg.trust.value, environment, required)
    requires Undecided(EnvironmentOf(sys.state, environment).pending, required) && Achieved(cfg, sys, f, next)
    requires required >= 1
    ensures Undecided(EnvironmentOf(next.state, environment).pending, required)
    ensures IsApproval(f, environment) ==> |f.approvers| == required == f.required
  {
    AchievedMoves(cfg, sys, f, next);
    if f.Endorsed? && f.note.environment == environment {
      SettingsAreUnique(cfg.trust.value, environment, required);
      VoteIsExact(EnvironmentOf(sys.state, environment), required, f.note.bundleHash, f.note.approver, f.note.reason,
                  f.note.ts);
    }
  }

  /** Where the requirement stays the same, no pending list ever holds enough approvers, and every approval is exact. */
  lemma {:induction false} RunIsExact(setup: Setup, turns: seq<Turn>, environment: string, required: int)
    requires required >= 1 && AlwaysRequires(turns, environment, required)
    ensures var (sys, facts) := Run(setup, turns);
      && Undecided(EnvironmentOf(sys.state, environment).pending, required)
      && ExactApprovals(facts, environment, required)
  {
    if turns == [] {
      assert forall hash :: Approvers(For(EnvironmentOf(NEW_STATE, environment).pending, hash)) - {""} == {};
    } else {
      var n := |turns| - 1;
      RunIsExact(setup, turns[..n], environment, required);
      var cfg, sys, facts, next, f := LastOf(setup, turns);
      assert turns[n] in turns;
      if f.Some? {
        AchievedIsExact(cfg, sys, f.value, next, environment, required);
      }
    }
  }

  /** The log holds a record of the environment and the bundle by this approver. */
  ghost predicate Signed(notes: seq<Note>, environment: string, hash: string, approver: string) {
    exists n :: n in notes && n.environment == environment && n.bundleHash == hash && n.approver == approver
  }

  lemma {:induction false} PendingIsSigned(notes: seq<Note>, environment: string, a: Approval)
    requires a in StillPending(notes, environment)
    ensures Signed(notes, environment, a.bundleHash, a.approver)
  {
    if a !in Surviving(notes[0], notes[1..], environment) {
      PendingIsSigned(notes[1..], environment, a);
    }
  }

  lemma {:induction false} ForSelects(pending: seq<Approval>, hash: string, a: Approval)
    ensures a in For(pending, hash) <==> a in pending && a.bundleHash == hash
  {
    if pending != [] {
      ForSelects(pending[..|pending| - 1], hash, a);
    }
  }

  /** Everyone an approval lists has a record of their own in the log up to it. */
  ghost predicate ApproversSigned(f: Fact, log: seq<Note>) {
    f.Endorsed? ==> forall a | a in f.approvers :: Signed(log, f.note.environment, f.note.bundleHash, a)
  }

  lemma VotersSigned(pending: seq<Approval>, notes: seq<Note>, note: Note, a: string)
    requires pending == StillPending(notes, note.environment)
    requires a in Approvers(For(pending + [Approval(note.bundleHash, note.approver, note.reason, note.ts)],
                                note.bundleHash))
    ensures Signed(notes + [note], note.environment, note.bundleHash, a)
  {
    ForMore(pending, Approval(note.bundleHash, note.approver, note.reason, note.ts), note.bundleHash);
    assert note in notes + [note];
    if a != note.approver {
      var v :| v in For(pending, note.bundleHash) && v.approver == a;
      ForSelects(pending, note.bundleHash, v);
      PendingIsSigned(notes, note.environment, v);
      var n :| n in notes && n.environment == note.environment && n.bundleHash == note.bundleHash && n.approver == a;
      assert n in notes + [note];
    }
  }

  lemma VotersOfFactSigned(cfg: Config, sys: Sys, facts: seq<Fact>, f: Fact, next: Sys)
    requires Folded(sys.state, facts) && Achieved(cfg, sys, f, next)
    ensures ApproversSigned(f, NotesIn(facts + [f]))
  {
    Extended(facts, f);
    if f.Endorsed? {
      var pending := EnvironmentOf(sys.state, f.note.environment).pending;
      assert pending == StillPending(NotesIn(facts), f.note.environment);
      forall a | a in f.approvers
        ensures Signed(NotesIn(facts + [f]), f.note.environment, f.note.bundleHash, a)
      {
        VotersSigned(pending, NotesIn(facts), f.note, a);
      }
    }
  }

  ghost predicate AllSigned(facts: seq<Fact>) {
    facts == [] || (AllSigned(facts[..|facts| - 1]) && ApproversSigned(facts[|facts| - 1], NotesIn(facts)))
  }

  lemma {:induction false} ListedApproversSigned(setup: Setup, turns: seq<Turn>)
    ensures AllSigned(Run(setup, turns).1)
  {
    if turns != [] {
      ListedApproversSigned(setup, turns[..|turns| - 1]);
      RunFolds(setup, turns[..|turns| - 1]);
      var cfg, sys, facts, next, f := LastOf(setup, turns);
      if f.Some? {
        VotersOfFactSigned(cfg, sys, facts, f.value, next);
        Extended(facts, f.value);
      }
    }
  }

  lemma {:induction false} SignedAt(facts: seq<Fact>, i: nat)
    requires i < |facts| && AllSigned(facts)
    ensures ApproversSigned(facts[i], NotesIn(facts[..i + 1]))
  {
    var n := |facts| - 1;
    if i == n {
      assert facts[..i + 1] == facts;
    } else {
      SignedAt(facts[..n], i);
      assert facts[..n][..i + 1] == facts[..i + 1];
    }
  }

  predicate IsGlobal(f: Fact, environment: string) {
    f.Applied? && f.stage == Global && f.environment == environment
  }

  predicate IsApproval(f: Fact, environment: string) {
    f.Endorsed? && f.note.environment == environment && f.note.status == Approved
  }

  /** `j` is the last completed approval before `i`, with no global apply of the environment since. */
  ghost predicate StandsAt(facts: seq<Fact>, environment: string, j: nat, i: nat) {
    && j < i <= |facts| && IsApproval(facts[j], environment)
    && forall k | j < k < i :: !IsGlobal(facts[k], environment) && !IsApproval(facts[k], environment)
  }

  lemma {:induction false} ApprovalStands(facts: seq<Fact>, environment: string, i: nat) returns (j: nat)
    requires i <= |facts| && ApprovedOf(facts[..i], environment) != ""
    ensures StandsAt(facts, environment, j, i) && facts[j].note.bundleHash == ApprovedOf(facts[..i], environment)
  {
    assert facts[..i][..i - 1] == facts[..i - 1];
    if IsApproval(facts[i - 1], environment) {
      j := i - 1;
    } else {
      j := ApprovalStands(facts, environment, i - 1);
    }
  }

  /** A gated global apply names the approved hash as its source. */
  ghost predicate NamesApproved(facts: seq<Fact>, i: nat)
    requires i < |facts|
  {
    facts[i].Applied? && facts[i].gated ==>
      var b := facts[i].bundle;
      && facts[i].stage == Global
      && b.metadata.Some? && b.metadata.value.gate.Some? && b.metadata.value.gate.value.source.Some?
      && var source := b.metadata.value.gate.value.source.value;
      && source != "" && source == ApprovedOf(facts[..i], facts[i].environment)
  }

  ghost predicate AllNameApproved(facts: seq<Fact>) {
    forall i | 0 <= i < |facts| :: NamesApproved(facts, i)
  }

  lemma NamesApprovedMore(cfg: Config, sys: Sys, facts: seq<Fact>, f: Fact, next: Sys)
    requires Folded(sys.state, facts) && Achieved(cfg, sys, f, next) && AllNameApproved(facts)
    ensures AllNameApproved(facts + [f])
  {
    forall i | 0 <= i <= |facts|
      ensures NamesApproved(facts + [f], i)
    {
      PrefixOfExtended(facts, f, i);
      if i < |facts| {
        assert NamesApproved(facts, i);
      } else if f.Applied? {
        assert facts[..i] == facts;
        assert EnvironmentOf(sys.state, f.environment).approved == ApprovedOf(facts, f.environment);
      }
    }
  }

  lemma {:induction false} GlobalsNameApproved(setup: Setup, turns: seq<Turn>)
    ensures AllNameApproved(Run(setup, turns).1)
  {
    if turns != [] {
      GlobalsNameApproved(setup, turns[..|turns| - 1]);
      RunFolds(setup, turns[..|turns| - 1]);
      var cfg, sys, facts, next, f := LastOf(setup, turns);
      if f.Some? {
        NamesApprovedMore(cfg, sys, facts, f.value, next);
      }
    }
  }

  /**
   * Each global apply that needs approval, by the policy of its environment or by its own gate, consumes an
   * approval of its own source hash, completed since the environment's previous global apply by as many
   * distinct, named approvers as were required then, each with a record in the approval log. They are
   * exactly that many where the requirement stays the same.
   */
  lemma GlobalConsumesApproval(setup: Setup, turns: seq<Turn>, i: nat) returns (j: nat)
    requires var facts := Run(setup, turns).1; i < |facts| && facts[i].Applied? && facts[i].gated
    ensures var facts := Run(setup, turns).1;
      && StandsAt(facts, facts[i].environment, j, i)
      && facts[i].bundle.metadata.Some? && facts[i].bundle.metadata.value.gate.Some?
      && facts[i].bundle.metadata.value.gate.value.source == Some(facts[j].note.bundleHash)
      && |facts[j].approvers| >= facts[j].required && "" !in facts[j].approvers
      && ApproversSigned(facts[j], NotesIn(facts[..j + 1]))
      && forall n | n >= 1 && AlwaysRequires(turns, facts[i].environment, n) ::
           |facts[j].approvers| == n == facts[j].required
  {
    var facts := Run(setup, turns).1;
    GlobalsNameApproved(setup, turns);
    assert NamesApproved(facts, i);
    j := ApprovalStands(facts, facts[i].environment, i);
    ApprovalsAreSufficient(setup, turns);
    assert Sufficient(facts[j]);
    ListedApproversSigned(setup, turns);
    SignedAt(facts, j);
    forall n | n >= 1 && AlwaysRequires(turns, facts[i].environment, n)
      ensures |facts[j].approvers| == n == facts[j].required
    {
      RunIsExact(setup, turns, facts[i].environment, n);
      assert facts[j] in facts;
    }
  }

  predicate IsGatedGlobal(f: Fact, environment: string) {
    IsGlobal(f, environment) && f.gated
  }

  function CountGated(facts: seq<Fact>, environment: string): nat {
    if facts == [] then 0
    else
      var n := |facts| - 1;
      CountGated(facts[..n], environment) + if IsGatedGlobal(facts[n], environment) then 1 else 0
  }

  function CountGlobals(facts: seq<Fact>, environment: string): nat {
    if facts == [] then 0
    else
      var n := |facts| - 1;
      CountGlobals(facts[..n], environment) + if IsGlobal(facts[n], environment) then 1 else 0
  }

  function CountApprovals(facts: seq<Fact>, environment: string): nat {
    if facts == [] then 0
    else
      var n := |facts| - 1;
      CountApprovals(facts[..n], environment) + if IsApproval(facts[n], environment) then 1 else 0
  }

  lemma {:induction false} StandingApprovalIsUnspent(facts: seq<Fact>, environment: string)
    requires AllNameApproved(facts)
    ensures CountGated(facts, environment) + (if ApprovedOf(facts, environment) != "" then 1 else 0)
         <= CountApprovals(facts, environment)
  {
    if facts != [] {
      var n := |facts| - 1;
      forall i | 0 <= i < n
        ensures NamesApproved(facts[..n], i)
      {
        assert NamesApproved(facts, i) && facts[..n][..i] == facts[..i];
      }
      StandingApprovalIsUnspent(facts[..n], environment);
      assert NamesApproved(facts, n);
    }
  }

  /** Every trust store that was found requires canary approval in the environment. */
  ghost predicate AlwaysGated(turns: seq<Turn>, environment: string) {
    forall t | t in turns && t.trust.Some? :: RequiresCanary(t.trust.value, environment)
  }

  lemma {:induction false} AllGlobalsAreGated(setup: Setup, turns: seq<Turn>, environment: string)
    requires AlwaysGated(turns, environment)
    ensures var facts := Run(setup, turns).1; CountGlobals(facts, environment) == CountGated(facts, environment)
  {
    if turns != [] {
      var n := |turns| - 1;
      AllGlobalsAreGated(setup, turns[..n], environment);
      var cfg, sys, facts, next, f := LastOf(setup, turns);
      assert turns[n] in turns;
      if f.Some? {
        Extended(facts, f.value);
      }
    }
  }

  /**
   * Global applies that need approval never outnumber completed approvals; nor do all global applies, where
   * the policy requires approval.
   */
  lemma GlobalsNeverOutnumberApprovals(setup: Setup, turns: seq<Turn>, environment: string)
    ensures var facts := Run(setup, turns).1;
      && CountGated(facts, environment) <= CountApprovals(facts, environment)
      && (AlwaysGated(turns, environment) ==> CountGlobals(facts, environment) <= CountApprovals(facts, environment))
  {
    GlobalsNameApproved(setup, turns);
    StandingApprovalIsUnspent(Run(setup, turns).1, environment);
    if AlwaysGated(turns, environment) {
      AllGlobalsAreGated(setup, turns, environment);
    }
  }
}
