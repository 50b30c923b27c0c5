/** The append-only approval log: hash-chained, sealed, and re-verified while it grows. */
module ApprovalAudit {
  import opened Arithmetic
  import opened Options

  datatype ApprovalStatus = Pending | Approved

  /** What an append records, before it is chained. */
  datatype Note = Note(
    ts: real, environment: string, bundleHash: string, approver: string, reason: string, status: ApprovalStatus)

  datatype Body = Body(note: Note, prevHash: string)

  datatype Entry = Entry(body: Body, recordHash: string, seal: string)

  /** Digest of the canonical form of a body, and the seal under a fixed key of a body with its digest. */
  datatype Sealing = Sealing(digest: Body -> string, seal: (Body, string) -> string)

  /** Digests are 64 hexadecimal digits. Nothing says that they are different for different bodies. */
  ghost predicate HexDigests(s: Sealing) {
    forall b :: |s.digest(b)| == 64
  }

  predicate Genuine(s: Sealing, entry: Entry) {
    && entry.recordHash == s.digest(entry.body)
    && entry.seal == s.seal(entry.body, entry.recordHash)
  }

  function LastHash(log: seq<Entry>): string {
    if log == [] then "" else log[|log| - 1].recordHash
  }

  /** The entry is genuine and names the hash that the log before it ends in. */
  predicate Follows(s: Sealing, log: seq<Entry>, entry: Entry) {
    Genuine(s, entry) && entry.body.prevHash == LastHash(log)
  }

  predicate Accepted(s: Sealing, log: seq<Entry>) {
    log == [] || (Accepted(s, log[..|log| - 1]) && Follows(s, log[..|log| - 1], log[|log| - 1]))
  }

  function NewEntry(s: Sealing, log: seq<Entry>, note: Note): Entry {
    var body := Body(note, LastHash(log));
    Entry(body, s.digest(body), s.seal(body, s.digest(body)))
  }

  datatype AuditConfig = AuditConfig(verifyEvery: int, verifyBeforeAppend: bool)

  /** The file, and the number of appends counted since it was opened, its initial length included. */
  datatype AuditState = AuditState(log: seq<Entry>, count: nat)

  function Period(cfg: AuditConfig): nat {
    if cfg.verifyEvery < 1 then 1 else cfg.verifyEvery
  }

  /** The state after an append, and whether it returned normally. */
  function Append(cfg: AuditConfig, s: Sealing, a: AuditState, note: Note): (AuditState, bool) {
    if cfg.verifyBeforeAppend && a.count > 0 && !Accepted(s, a.log) then (a, false)
    else
      var next := AuditState(a.log + [NewEntry(s, a.log, note)], a.count + 1);
      (next, next.count % Period(cfg) != 0 || Accepted(s, next.log))
  }

  class CanaryApprovalAuditLedger {
    const cfg: AuditConfig
    const sealing: Sealing
    var log: seq<Entry>
    var appendCount: nat

    ghost function View(): AuditState
      reads this
    {
      AuditState(log, appendCount)
    }

    constructor (cfg: AuditConfig, sealing: Sealing, file: seq<Entry>)
      ensures this.cfg == cfg && this.sealing == sealing && View() == AuditState(file, |file|)
    {
      this.cfg, this.sealing, log, appendCount := cfg, sealing, file, |file|;
    }

    /** Opening fails closed: a rejected file yields no ledger. */
    static method Open(cfg: AuditConfig, sealing: Sealing, file: seq<Entry>)
      returns (ledger: CanaryApprovalAuditLedger?)
      ensures ledger == null <==> !Accepted(sealing, file)
      ensures ledger != null ==> fresh(ledger) && ledger.cfg == cfg && ledger.sealing == sealing
      ensures ledger != null ==> ledger.View() == AuditState(file, |file|)
    {
      var candidate := new CanaryApprovalAuditLedger(cfg, sealing, file);
      var records := Some(0);
      if candidate.appendCount > 0 {
        records := candidate.VerifyChain();
      }
      ledger := if records.Some? then candidate else null;
    }

    /** The number of verified records, or `None` where verification raises an error. */
    method VerifyChain() returns (records: Option<nat>)
      ensures records == if Accepted(sealing, log) then Some(|log|) else None
    {
      var expectedPrevHash, i := "", 0;
      while i < |log|
        invariant 0 <= i <= |log|
        invariant expectedPrevHash == LastHash(log[..i]) && Accepted(sealing, log[..i])
      {
        var entry := log[i];
        AcceptedUpTo(sealing, log, i);
        if entry.body.prevHash != expectedPrevHash {
          return None;
        }
        if entry.recordHash != sealing.digest(entry.body) {
          return None;
        }
        if entry.seal != sealing.seal(entry.body, entry.recordHash) {
          return None;
        }
        expectedPrevHash := entry.recordHash;
        i := i + 1;
      }
      assert log[..i] == log;
      records := Some(i);
    }

    method AppendRecord(note: Note) returns (ok: bool)
      modifies this
      ensures (View(), ok) == Append(cfg, sealing, old(View()), note)
    {
      if cfg.verifyBeforeAppend && appendCount > 0 {
        var verified := VerifyChain();
        if verified.None? {
          return false;
        }
      }
      log := log + [NewEntry(sealing, log, note)];
      appendCount := appendCount + 1;
      ok := true;
      if appendCount % Period(cfg) == 0 {
        var verified := VerifyChain();
        ok := verified.Some?;
      }
    }
  }

  // ---------- Growth ----------

  lemma {:induction false} AcceptedIsPrefixClosed(s: Sealing, log: seq<Entry>, n: nat)
    requires n <= |log| && Accepted(s, log)
    ensures Accepted(s, log[..n])
  {
    if n == |log| {
      assert log[..n] == log;
    } else {
      AcceptedIsPrefixClosed(s, log[..|log| - 1], n);
      assert log[..|log| - 1][..n] == log[..n];
    }
  }

  /** The accepted beginning of a log grows by its next entry exactly if that follows; if not, the log is rejected. */
  lemma AcceptedUpTo(s: Sealing, log: seq<Entry>, i: nat)
    requires i < |log| && Accepted(s, log[..i])
    ensures Accepted(s, log[..i + 1]) <==> Follows(s, log[..i], log[i])
    ensures Accepted(s, log) ==> Follows(s, log[..i], log[i])
    ensures LastHash(log[..i + 1]) == log[i].recordHash
  {
    assert log[..i + 1][..i] == log[..i];
    if Accepted(s, log) {
      AcceptedIsPrefixClosed(s, log, i + 1);
    }
  }

  lemma AppendKeepsAccepted(s: Sealing, log: seq<Entry>, note: Note)
    requires Accepted(s, log)
    ensures Accepted(s, log + [NewEntry(s, log, note)])
  {
    assert (log + [NewEntry(s, log, note)])[..|log|] == log;
  }

  lemma AppendSucceeds(cfg: AuditConfig, s: Sealing, a: AuditState, note: Note)
    requires Accepted(s, a.log)
    ensures Append(cfg, s, a, note) == (AuditState(a.log + [NewEntry(s, a.log, note)], a.count + 1), true)
  {
    AppendKeepsAccepted(s, a.log, note);
  }

  /** Read forwards: every entry is genuine and names the hash of the one before it. */
  lemma {:induction false} AcceptedMeansChained(s: Sealing, log: seq<Entry>)
    ensures Accepted(s, log) <==> forall i | 0 <= i < |log| :: Follows(s, log[..i], log[i])
  {
    if log != [] {
      var n := |log| - 1;
      AcceptedMeansChained(s, log[..n]);
      forall i | 0 <= i < n
        ensures Follows(s, log[..n][..i], log[..n][i]) <==> Follows(s, log[..i], log[i])
      {
        assert log[..n][..i] == log[..i];
      }
    }
  }

  function AppendAll(cfg: AuditConfig, s: Sealing, a: AuditState, notes: seq<Note>): AuditState {
    if notes == [] then a
    else Append(cfg, s, AppendAll(cfg, s, a, notes[..|notes| - 1]), notes[|notes| - 1]).0
  }

  /** The i-th of a series of appends raises an error. */
  predicate RaisesAt(cfg: AuditConfig, s: Sealing, a: AuditState, notes: seq<Note>, i: nat)
    requires i < |notes|
  {
    !Append(cfg, s, AppendAll(cfg, s, a, notes[..i]), notes[i]).1
  }

  lemma {:induction false} RejectedStaysRejected(cfg: AuditConfig, s: Sealing, a: AuditState, notes: seq<Note>)
    requires !Accepted(s, a.log)
    ensures !Accepted(s, AppendAll(cfg, s, a, notes).log)
  {
    if notes != [] {
      RejectedStaysRejected(cfg, s, a, notes[..|notes| - 1]);
      var before := AppendAll(cfg, s, a, notes[..|notes| - 1]);
      RejectionIsInherited(s, before.log, NewEntry(s, before.log, notes[|notes| - 1]));
    }
  }

  lemma RejectionIsInherited(s: Sealing, log: seq<Entry>, entry: Entry)
    ensures Accepted(s, log + [entry]) ==> Accepted(s, log)
  {
    assert (log + [entry])[..|log|] == log;
  }

  lemma {:induction false} SilentAppendsCount(cfg: AuditConfig, s: Sealing, a: AuditState, notes: seq<Note>, n: nat)
    requires n <= |notes| && !Accepted(s, a.log)
    requires forall i | 0 <= i < n :: !RaisesAt(cfg, s, a, notes, i)
    ensures AppendAll(cfg, s, a, notes[..n]).count == a.count + n
    ensures forall c | a.count < c <= a.count + n :: c % Period(cfg) != 0
  {
    if n > 0 {
      SilentAppendsCount(cfg, s, a, notes, n - 1);
      assert notes[..n][..n - 1] == notes[..n - 1];
      assert !RaisesAt(cfg, s, a, notes, n - 1);
      RejectedStaysRejected(cfg, s, a, notes[..n]);
    }
  }

  lemma SomeMultiple(from: nat, period: nat) returns (c: nat)
    requires period >= 1
    ensures from < c <= from + period && c % period == 0
  {
    var q := from / period;
    c := from + period - from % period;
    assert (q + 1) * period == q * period + period;
    QuotientIs(c, period, q + 1, 0);
  }

  /** Once the file is rejected, one of the next `verifyEvery` appends raises, whatever is appended. */
  lemma RejectionIsNoticed(cfg: AuditConfig, s: Sealing, a: AuditState, notes: seq<Note>)
    requires !Accepted(s, a.log) && |notes| >= 1 && |notes| >= cfg.verifyEvery
    ensures exists i ::
      0 <= i < |notes| && (i < 1 || i < cfg.verifyEvery) && RaisesAt(cfg, s, a, notes, i)
  {
    if forall i | 0 <= i < Period(cfg) :: !RaisesAt(cfg, s, a, notes, i) {
      SilentAppendsCount(cfg, s, a, notes, Period(cfg));
      var c := SomeMultiple(a.count, Period(cfg));
      assert false;
    }
  }

  // ---------- Tamper evidence ----------

  /** Two different bodies with one digest, if the logs differ before a common last hash. */
  function Collision(log: seq<Entry>, other: seq<Entry>): Option<(Body, Body)> {
    if log == [] || other == [] then None
    else
      var a, b := log[|log| - 1].body, other[|other| - 1].body;
      if a != b then Some((a, b)) else Collision(log[..|log| - 1], other[..|other| - 1])
  }

  ghost predicate Collides(s: Sealing, log: seq<Entry>, other: seq<Entry>) {
    var c := Collision(log, other);
    && c.Some? && c.value.0 != c.value.1 && s.digest(c.value.0) == s.digest(c.value.1)
    && (exists e :: e in log && e.body == c.value.0)
    && (exists e :: e in other && e.body == c.value.1)
  }

  /** Logs whose last entries carry one hash are equal, or collide there or before. */
  lemma CollisionReaches(s: Sealing, log: seq<Entry>, other: seq<Entry>, a: Entry, b: Entry)
    requires Genuine(s, a) && Genuine(s, b) && a.recordHash == b.recordHash
    requires a.body == b.body ==> log == other || Collides(s, log, other)
    ensures log + [a] == other + [b] || Collides(s, log + [a], other + [b])
  {
    assert (log + [a])[..|log|] == log && (other + [b])[..|other|] == other;
    if a.body == b.body && log != other {
      var c := Collision(log, other);
      var e :| e in log && e.body == c.value.0;
      var f :| f in other && f.body == c.value.1;
      assert e in log + [a] && f in other + [b];
    } else {
      assert a in log + [a] && b in other + [b];
    }
  }

  /**
   * Two accepted logs that end in the same hash are the same log, whatever their lengths, or they
   * exhibit a collision of the digest.
   */
  lemma {:induction false} SameEndMeansSameLog(s: Sealing, log: seq<Entry>, other: seq<Entry>)
    requires HexDigests(s) && Accepted(s, log) && Accepted(s, other)
    requires LastHash(log) == LastHash(other)
    ensures log == other || Collides(s, log, other)
  {
    if log != [] && other != [] {
      var p, a := log[..|log| - 1], log[|log| - 1];
      var q, b := other[..|other| - 1], other[|other| - 1];
      assert log == p + [a] && other == q + [b];
      if a.body == b.body {
        SameEndMeansSameLog(s, p, q);
      }
      CollisionReaches(s, p, q, a, b);
    }
  }
}
