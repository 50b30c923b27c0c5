/** What one change of a vendor record does to admission: exact conditions, for any record whatever. */
module PinChangeProofs {
  import opened Options
  import opened CertPins

  // ---------- Windows ----------

  /** A pin that names a fingerprint and whose window is open: it has begun and is not over, its ends included. */
  predicate Open(p: Pin, now: real) {
    && p.fingerprint != ""
    && (p.notBefore.Some? ==> p.notBefore.value <= now)
    && (p.notAfter.Some? ==> now <= p.notAfter.value)
  }

  /** The fingerprints that a list of pins vouches for are those of its open pins. */
  lemma LiveNamesAreOpen(pins: seq<Pin>, now: real, fingerprint: string)
    ensures fingerprint in LiveNames(pins, now) <==>
      exists p :: p in pins && Open(p, now) && p.fingerprint == fingerprint
  {
    assert forall p :: Live(p, now) <==> Open(p, now);
  }

  /** A fingerprint scheduled for a new vendor is admitted exactly inside its window. */
  lemma FirstScheduleAdmitsIff(store: Store, id: string, at: real, now: real, fingerprint: string, activateAt: real,
                               expiresAt: Option<real>)
    requires id !in store
    ensures Admits(Apply(store, id, at, Schedule(fingerprint, activateAt, expiresAt)), id, now, fingerprint) <==>
      && fingerprint != ""
      && activateAt <= now && (expiresAt.Some? ==> now <= expiresAt.value)
  {
    ScheduleAdmitsIff(store, id, at, now, fingerprint, activateAt, expiresAt);
    assert Staged(NEW_VENDOR, now) == {};
  }

  /** A fingerprint rotated in for a new vendor is admitted at any time. */
  lemma FirstRotationAdmits(store: Store, id: string, at: real, now: real, fingerprint: string)
    requires id !in store
    ensures Admits(Apply(store, id, at, Rotate(fingerprint)), id, now, fingerprint)
  {
    RotationAdmitsIff(store, id, at, now, fingerprint);
    assert Staged(NEW_VENDOR, now) == {};
  }

  /**
   * What a cutover does, window by window. Active pins that are not open go. If none is left and a next pin
   * is open, the open next pins become the active ones, and the former active ones, if any, the previous.
   */
  lemma CutoverMoves(v: Vendor, now: real)
    ensures var c := Cutover(v, now);
      var anyActive, anyNext := (exists p :: p in v.active && Open(p, now)), (exists p :: p in v.next && Open(p, now));
      && (forall p :: p in c.active <==> Open(p, now) && if anyActive then p in v.active else p in v.next)
      && (forall p :: p in c.next <==> p in v.next && (anyActive || !Open(p, now)))
      && (c.previous == if !anyActive && anyNext && v.active != [] then v.active else v.previous)
      && c.allowed == v.allowed && c.revoked == v.revoked
  {
    assert forall p :: Live(p, now) <==> Open(p, now);
    var activeLive, nextLive := LivePins(v.active, now), LivePins(v.next, now);
    assert activeLive != [] ==> activeLive[0] in activeLive;
    assert nextLive != [] ==> nextLive[0] in nextLive;
  }

  /**
   * What each operation may touch. A check of a revoked fingerprint leaves everything as it is; otherwise a
   * check touches the staged lists only, a rotation the legacy and active lists, a schedule the next list,
   * a rollback the staged lists, and a revocation the revoked list. Nothing but those four lists of its
   * own vendor, and no other vendor, is ever affected.
   */
  lemma OperationsKeepTheRest(store: Store, id: string, at: real, op: Op, other: string)
    ensures var v, w := VendorOf(store, id), VendorOf(Apply(store, id, at, op), id);
      && (op.Rotate? || op.Schedule? || op.Revoke? ==> w.previous == v.previous)
      && (op.Schedule? || op.Revoke? ==> w.active == v.active)
      && (op.Rotate? || op.Revoke? ==> w.next == v.next)
      && (!op.Rotate? ==> w.allowed == v.allowed)
      && (!op.Revoke? ==> w.revoked == v.revoked)
      && (op.Check? && op.fingerprint in v.revoked ==> w == v)
      && (op.Rollback? ==>
            if v.previous == [] then w == v
            else w.active == v.previous && w.next == v.active + v.next && w.previous == [])
      && (op.Rotate? ==> forall f :: f in w.allowed <==> f in v.allowed || f == op.fingerprint)
      && (op.Revoke? ==> forall f :: f in w.revoked <==> f in v.revoked || f == op.fingerprint)
    ensures other != id ==>
      VendorOf(Apply(store, id, at, op), other) == VendorOf(store, other) &&
      (other in Apply(store, id, at, op) <==> other in store)
    ensures id in Apply(store, id, at, op) <==> id in store || op.Rotate? || op.Schedule? || op.Revoke?
  {
  }

  /** The fingerprints that live staged pins vouch for. */
  function Staged(v: Vendor, now: real): set<string> {
    LiveNames(v.active + v.next, now)
  }

  lemma CutoverKeepsFingerprints(v: Vendor, now: real)
    ensures AllowedFingerprints(Cutover(v, now), now) == AllowedFingerprints(v, now)
  {
    var c := Cutover(v, now);
    assert forall p :: p in c.active + c.next && Live(p, now) <==> p in v.active + v.next && Live(p, now);
    assert LiveNames(c.active + c.next, now) == LiveNames(v.active + v.next, now);
  }

  /** The automatic cutover never shows in a verdict: it is as if the record were read as it is. */
  lemma AdmittedIff(v: Vendor, now: real, fingerprint: string)
    ensures Admitted(v, now, fingerprint) <==>
      && fingerprint !in v.revoked
      && if Staged(v, now) != {} then fingerprint in Staged(v, now) else fingerprint in v.allowed
  {
    CutoverKeepsFingerprints(v, now);
  }

  lemma LiveNamesConcat(a: seq<Pin>, b: seq<Pin>, now: real)
    ensures LiveNames(a + b, now) == LiveNames(a, now) + LiveNames(b, now)
  {
  }

  // ---------- Rotations and schedules ----------

  /** A rotation is ignored while the active list still names the fingerprint. */
  predicate RotationHolds(v: Vendor, now: real, fingerprint: string) {
    && fingerprint !in v.revoked
    && ((fingerprint != "" && !Names(v.active, fingerprint)) || fingerprint in Staged(v, now) || Staged(v, now) == {})
  }

  /** A schedule is ignored while the next list still names the fingerprint. */
  predicate ScheduleHolds(v: Vendor, now: real, pin: Pin) {
    && pin.fingerprint !in v.revoked
    && ((Live(pin, now) && !Names(v.next, pin.fingerprint)) || pin.fingerprint in Staged(v, now) ||
        (Staged(v, now) == {} && pin.fingerprint in v.allowed))
  }

  lemma RotatedStaged(v: Vendor, at: real, now: real, fingerprint: string)
    ensures Staged(Effect(v, at, Rotate(fingerprint)), now) ==
      Staged(v, now) + if fingerprint != "" && !Names(v.active, fingerprint) then {fingerprint} else {}
  {
    var pin := Pin(fingerprint, None, None);
    LiveNamesConcat(v.active, v.next, now);
    LiveNamesConcat(v.active, [pin], now);
    LiveNamesConcat(v.active + [pin], v.next, now);
    assert LiveNames([pin], now) == if fingerprint != "" then {fingerprint} else {};
  }

  lemma ScheduledStaged(v: Vendor, at: real, now: real, pin: Pin)
    requires pin.notBefore.Some?
    ensures Staged(Effect(v, at, Schedule(pin.fingerprint, pin.notBefore.value, pin.notAfter)), now) ==
      Staged(v, now) + if Live(pin, now) && !Names(v.next, pin.fingerprint) then {pin.fingerprint} else {}
  {
    LiveNamesConcat(v.active, v.next, now);
    LiveNamesConcat(v.next, [pin], now);
    LiveNamesConcat(v.active, v.next + [pin], now);
    assert LiveNames([pin], now) == if Live(pin, now) then {pin.fingerprint} else {};
  }

  lemma RotatedIsAdmittedIff(v: Vendor, at: real, now: real, fingerprint: string)
    ensures Admitted(Effect(v, at, Rotate(fingerprint)), now, fingerprint) <==> RotationHolds(v, now, fingerprint)
  {
    RotatedStaged(v, at, now, fingerprint);
    AdmittedIff(Effect(v, at, Rotate(fingerprint)), now, fingerprint);
  }

  lemma ScheduledIsAdmittedIff(v: Vendor, at: real, now: real, pin: Pin)
    requires pin.notBefore.Some?
    ensures Admitted(Effect(v, at, Schedule(pin.fingerprint, pin.notBefore.value, pin.notAfter)), now, pin.fingerprint)
       <==> ScheduleHolds(v, now, pin)
  {
    ScheduledStaged(v, at, now, pin);
    AdmittedIff(Effect(v, at, Schedule(pin.fingerprint, pin.notBefore.value, pin.notAfter)), now, pin.fingerprint);
  }

  /**
   * Exactly when a rotated fingerprint is admitted at some later moment, in any pinset. A dead active pin
   * that no check has pruned yet, or that dies afterwards, is enough to have the rotation ignored.
   */
  lemma RotationAdmitsIff(store: Store, id: string, at: real, now: real, fingerprint: string)
    ensures Admits(Apply(store, id, at, Rotate(fingerprint)), id, now, fingerprint)
       <==> RotationHolds(VendorOf(store, id), now, fingerprint)
  {
    RotatedIsAdmittedIff(VendorOf(store, id), at, now, fingerprint);
  }

  /**
   * Exactly when a scheduled fingerprint is admitted at some later moment, in any pinset. Next pins are
   * not pruned, so one whose window has passed is enough to have every later schedule ignored.
   */
  lemma ScheduleAdmitsIff(store: Store, id: string, at: real, now: real, fingerprint: string, activateAt: real,
                          expiresAt: Option<real>)
    ensures Admits(Apply(store, id, at, Schedule(fingerprint, activateAt, expiresAt)), id, now, fingerprint)
       <==> ScheduleHolds(VendorOf(store, id), now, Pin(fingerprint, Some(activateAt), expiresAt))
  {
    ScheduledIsAdmittedIff(VendorOf(store, id), at, now, Pin(fingerprint, Some(activateAt), expiresAt));
  }

  // ---------- Rollbacks ----------

  lemma RolledBackStaged(v: Vendor, at: real, now: real)
    ensures Staged(Effect(v, at, Rollback), now) == LiveNames(v.previous, now) + Staged(v, now)
  {
    var r := Effect(v, at, Rollback);
    assert forall p :: p in r.active + r.next <==> p in v.previous || p in v.active + v.next;
  }

  /**
   * After a rollback on any pinset at all, loaded or grown, a fingerprint is admitted exactly if it is not
   * revoked and some live pin of the previous, active and next ones names it, or none of these is live and
   * the legacy list names it.
   */
  lemma RollbackAdmitsIff(store: Store, id: string, at: real, now: real, fingerprint: string)
    requires id in store
    ensures var v := store[id];
      var pins := v.previous + v.active + v.next;
      Admits(Apply(store, id, at, Rollback), id, now, fingerprint) <==>
        && fingerprint !in v.revoked
        && if exists p :: p in pins && Open(p, now)
           then exists p :: p in pins && Open(p, now) && p.fingerprint == fingerprint
           else fingerprint in v.allowed
  {
    var v := store[id];
    var pins := v.previous + v.active + v.next;
    RolledBackStaged(v, at, now);
    AdmittedIff(Effect(v, at, Rollback), now, fingerprint);
    assert LiveNames(v.previous, now) + Staged(v, now) == LiveNames(pins, now);
    LiveNamesAreOpen(pins, now, fingerprint);
    if p :| p in pins && Open(p, now) {
      LiveNamesAreOpen(pins, now, p.fingerprint);
    } else {
      assert forall p :: p in pins ==> !Live(p, now);
    }
  }

  /** The condition on a vendor record under which a rollback makes no difference by itself. */
  predicate RollbackIsNeutral(v: Vendor, now: real) {
    AddsNothing(LiveNames(v.previous, now), Staged(v, now), set f | f in v.allowed, set f | f in v.revoked)
  }

  predicate AddsNothing(previous: set<string>, staged: set<string>, legacy: set<string>, revoked: set<string>) {
    || previous == {}
    || if staged != {} then previous - revoked <= staged else previous - revoked == legacy - revoked
  }

  /**
   * Exactly when a rollback makes no difference to what its vendor has admitted at a later moment, with no
   * operation in between: no previous pin is live then, or those that are add nothing to the live staged
   * pins, or to the legacy list.
   */
  lemma RollbackMattersIff(store: Store, id: string, at: real, now: real)
    requires id in store
    ensures (forall f :: Admits(Apply(store, id, at, Rollback), id, now, f) <==> Admits(store, id, now, f))
       <==> RollbackIsNeutral(store[id], now)
  {
    RollbackMattersToVendor(store[id], at, now);
    var next := Apply(store, id, at, Rollback);
    assert forall f :: Admits(next, id, now, f) <==> Admitted(Effect(store[id], at, Rollback), now, f);
  }

  lemma RollbackMattersToVendor(v: Vendor, at: real, now: real)
    ensures (forall f :: Admitted(Effect(v, at, Rollback), now, f) <==> Admitted(v, now, f)) <==>
      RollbackIsNeutral(v, now)
  {
    CutoverKeepsFingerprints(v, now);
    CutoverKeepsFingerprints(Effect(v, at, Rollback), now);
    RolledBackStaged(v, at, now);
    SameVerdicts(v, Effect(v, at, Rollback), now);
    NeutralSets(LiveNames(v.previous, now), Staged(v, now), set f | f in v.allowed, set f | f in v.revoked);
  }

  /** Vendors with the same revocations differ exactly by what they allow apart from these. */
  lemma SameVerdicts(v: Vendor, w: Vendor, now: real)
    requires w.revoked == v.revoked
    ensures (forall f :: Admitted(w, now, f) <==> Admitted(v, now, f)) <==>
      AllowedFingerprints(Cutover(v, now), now) - (set f | f in v.revoked) ==
      AllowedFingerprints(Cutover(w, now), now) - (set f | f in v.revoked)
  {
    var revoked := set f | f in v.revoked;
    assert forall f :: f in AllowedFingerprints(Cutover(v, now), now) - revoked <==> Admitted(v, now, f);
    assert forall f :: f in AllowedFingerprints(Cutover(w, now), now) - revoked <==> Admitted(w, now, f);
  }

  lemma NeutralSets(previous: set<string>, staged: set<string>, legacy: set<string>, revoked: set<string>)
    ensures var before, live := if staged != {} then staged else legacy, previous + staged;
      before - revoked == (if live != {} then live else legacy) - revoked <==>
        AddsNothing(previous, staged, legacy, revoked)
  {
    if staged != {} {
      assert (previous + staged) - revoked == (previous - revoked) + (staged - revoked);
      assert previous - revoked <= staged <==> previous - revoked <= staged - revoked;
    } else {
      assert previous + staged == previous;
    }
  }

  // ---------- Changes after a rollback ----------

  /**
   * A rollback can show in the next rotation, although it changes no verdict by itself. Exactly when a
   * rotation that follows a rollback is admitted at some later moment: the previous pins now stand where
   * the active ones did.
   */
  lemma RotationAfterRollbackIff(v: Vendor, back: real, at: real, now: real, fingerprint: string)
    requires v.previous != []
    ensures Admitted(Effect(Effect(v, back, Rollback), at, Rotate(fingerprint)), now, fingerprint) <==>
      && fingerprint !in v.revoked
      && ((fingerprint != "" && !Names(v.previous, fingerprint)) ||
          fingerprint in LiveNames(v.previous + v.active + v.next, now) ||
          LiveNames(v.previous + v.active + v.next, now) == {})
  {
    RotatedIsAdmittedIff(Effect(v, back, Rollback), at, now, fingerprint);
    RolledBackStaged(v, back, now);
    assert LiveNames(v.previous + v.active + v.next, now) == LiveNames(v.previous, now) + Staged(v, now);
  }

  /** Exactly when a schedule that follows a rollback is admitted: the former active pins are next ones now. */
  lemma ScheduleAfterRollbackIff(v: Vendor, back: real, at: real, now: real, pin: Pin)
    requires v.previous != [] && pin.notBefore.Some?
    ensures var live := LiveNames(v.previous + v.active + v.next, now);
      var op := Schedule(pin.fingerprint, pin.notBefore.value, pin.notAfter);
      Admitted(Effect(Effect(v, back, Rollback), at, op), now, pin.fingerprint) <==>
        && pin.fingerprint !in v.revoked
        && ((Live(pin, now) && !Names(v.active + v.next, pin.fingerprint)) || pin.fingerprint in live ||
            (live == {} && pin.fingerprint in v.allowed))
  {
    ScheduledIsAdmittedIff(Effect(v, back, Rollback), at, now, pin);
    RolledBackStaged(v, back, now);
    assert LiveNames(v.previous + v.active + v.next, now) == LiveNames(v.previous, now) + Staged(v, now);
  }

  /**
   * Where the previous pins are dead, exactly when the verdict on a rotated fingerprint depends on whether
   * a rollback came before. A rotation is lost by the rollback if the previous list names the fingerprint
   * and the active one does not, and it is saved by the rollback if it is the other way round.
   */
  lemma RollbackShowsInRotationIff(v: Vendor, back: real, at: real, now: real, fingerprint: string)
    requires v.previous != [] && LiveNames(v.previous, now) == {}
    ensures var after := Admitted(Effect(Effect(v, back, Rollback), at, Rotate(fingerprint)), now, fingerprint);
      var without := Admitted(Effect(v, at, Rotate(fingerprint)), now, fingerprint);
      var decides := fingerprint !in v.revoked && fingerprint != "" &&
                     fingerprint !in Staged(v, now) && Staged(v, now) != {};
      && (without && !after <==> decides && Names(v.previous, fingerprint) && !Names(v.active, fingerprint))
      && (after && !without <==> decides && Names(v.active, fingerprint) && !Names(v.previous, fingerprint))
  {
    RotationAfterRollbackIff(v, back, at, now, fingerprint);
    RotatedIsAdmittedIff(v, at, now, fingerprint);
    assert LiveNames(v.previous + v.active + v.next, now) == LiveNames(v.previous, now) + Staged(v, now);
  }

  /** The same for a scheduled fingerprint: a rollback can only lose the schedule of one that was active. */
  lemma RollbackShowsInScheduleIff(v: Vendor, back: real, at: real, now: real, pin: Pin)
    requires v.previous != [] && LiveNames(v.previous, now) == {} && pin.notBefore.Some?
    ensures var op, f := Schedule(pin.fingerprint, pin.notBefore.value, pin.notAfter), pin.fingerprint;
      var after, without := Admitted(Effect(Effect(v, back, Rollback), at, op), now, f),
                            Admitted(Effect(v, at, op), now, f);
      && (after ==> without)
      && (without && !after <==>
            && f !in v.revoked && f !in Staged(v, now) && !(Staged(v, now) == {} && f in v.allowed)
            && Live(pin, now) && Names(v.active, f) && !Names(v.next, f))
  {
    ScheduleAfterRollbackIff(v, back, at, now, pin);
    ScheduledIsAdmittedIff(v, at, now, pin);
    assert LiveNames(v.previous + v.active + v.next, now) == LiveNames(v.previous, now) + Staged(v, now);
    assert Names(v.active + v.next, pin.fingerprint) <==>
      Names(v.active, pin.fingerprint) || Names(v.next, pin.fingerprint);
  }
}
