/** Staged certificate pins: active, next and previous windows per vendor, with automatic cutover. */
module CertPins {
  import opened Options

  datatype Pin = Pin(fingerprint: string, notBefore: Option<real>, notAfter: Option<real>)

  datatype Vendor = Vendor(
    allowed: seq<string>, active: seq<Pin>, next: seq<Pin>, revoked: seq<string>, previous: seq<Pin>)

  const NEW_VENDOR := Vendor([], [], [], [], [])

  type Store = map<string, Vendor>

  predicate Started(p: Pin, now: real) {
    p.notBefore.None? || p.notBefore.value <= now
  }

  predicate Expired(p: Pin, now: real) {
    p.notAfter.Some? && p.notAfter.value < now
  }

  /** A pin that vouches for its fingerprint now. An empty fingerprint counts as no fingerprint. */
  predicate Live(p: Pin, now: real) {
    p.fingerprint != "" && Started(p, now) && !Expired(p, now)
  }

  function LivePins(pins: seq<Pin>, now: real): (r: seq<Pin>)
    ensures forall p :: p in r <==> p in pins && Live(p, now)
    ensures |r| <= |pins| && (|r| == |pins| ==> r == pins)
  {
    if pins == [] then []
    else (if Live(pins[0], now) then [pins[0]] else []) + LivePins(pins[1..], now)
  }

  function Without(pins: seq<Pin>, dropped: seq<Pin>): (r: seq<Pin>)
    ensures forall p :: p in r <==> p in pins && p !in dropped
  {
    if pins == [] then []
    else (if pins[0] in dropped then [] else [pins[0]]) + Without(pins[1..], dropped)
  }

  predicate Names(pins: seq<Pin>, fingerprint: string) {
    exists p :: p in pins && p.fingerprint == fingerprint
  }

  /** Drops dead active pins; once none is left, the live next pins take over. */
  function Cutover(v: Vendor, now: real): Vendor {
    var activeLive, nextLive := LivePins(v.active, now), LivePins(v.next, now);
    if activeLive == [] && nextLive != [] then
      v.(previous := if v.active != [] then v.active else v.previous,
         active := nextLive, next := Without(v.next, nextLive))
    else v.(active := activeLive)
  }

  /** The fingerprints that some of the pins vouch for now. */
  function LiveNames(pins: seq<Pin>, now: real): set<string> {
    set p | p in pins && Live(p, now) :: p.fingerprint
  }

  function AllowedFingerprints(v: Vendor, now: real): set<string> {
    var staged := LiveNames(v.active + v.next, now);
    if staged != {} then staged else set f | f in v.allowed
  }

  predicate Admitted(v: Vendor, now: real, fingerprint: string) {
    fingerprint !in v.revoked && fingerprint in AllowedFingerprints(Cutover(v, now), now)
  }

  datatype Op =
    | Rotate(fingerprint: string)
    | Schedule(fingerprint: string, activateAt: real, expiresAt: Option<real>)
    | Check(fingerprint: string)
    | Rollback
    | Revoke(fingerprint: string)

  /** The pin an operation appends, if it accepts one. */
  function AcceptedPin(v: Vendor, op: Op): Option<Pin> {
    match op
    case Rotate(f) => if Names(v.active, f) then None else Some(Pin(f, None, None))
    case Schedule(f, at, until) => if Names(v.next, f) then None else Some(Pin(f, Some(at), until))
    case _ => None
  }

  function Appended<T>(items: seq<T>, item: Option<T>): seq<T> {
    if item.None? then items else items + [item.value]
  }

  function Noted(items: seq<string>, item: string): seq<string> {
    if item in items then items else items + [item]
  }

  /** The effect of an operation on the record of its vendor. */
  function Effect(v: Vendor, now: real, op: Op): Vendor {
    match op
    case Rotate(f) => v.(allowed := Noted(v.allowed, f), active := Appended(v.active, AcceptedPin(v, op)))
    case Schedule(_, _, _) => v.(next := Appended(v.next, AcceptedPin(v, op)))
    case Check(f) => if f in v.revoked then v else Cutover(v, now)
    case Rollback =>
      if v.previous == [] then v else v.(next := v.active + v.next, active := v.previous, previous := [])
    case Revoke(f) => v.(revoked := Noted(v.revoked, f))
  }

  function VendorOf(store: Store, id: string): Vendor {
    if id in store then store[id] else NEW_VENDOR
  }

  /** Checking and rolling back need a known vendor; the other operations create it. */
  function Apply(store: Store, id: string, now: real, op: Op): Store {
    if id !in store && (op.Check? || op.Rollback?) then store else store[id := Effect(VendorOf(store, id), now, op)]
  }

  predicate Admits(store: Store, id: string, now: real, fingerprint: string) {
    id in store && Admitted(store[id], now, fingerprint)
  }

  datatype Verdict = Allowed | UnknownVendor | RevokedFingerprint | NotPinned | NoPreviousPins

  class VendorCertPinset {
    var vendors: Store

    /** The pinset of a file; a missing file is an empty one. */
    constructor (file: Option<Store>)
      ensures vendors == if file.Some? then file.value else map[]
    {
      vendors := if file.Some? then file.value else map[];
    }

    method AssertVendorFingerprintAllowed(id: string, fingerprint: string, now: real) returns (verdict: Verdict)
      modifies this
      ensures vendors == Apply(old(vendors), id, now, Check(fingerprint))
      ensures verdict.Allowed? <==> Admits(old(vendors), id, now, fingerprint)
      ensures verdict.UnknownVendor? <==> id !in old(vendors)
      ensures verdict.RevokedFingerprint? <==> id in old(vendors) && fingerprint in old(vendors)[id].revoked
    {
      if id !in vendors {
        return UnknownVendor;
      }
      if fingerprint in vendors[id].revoked {
        return RevokedFingerprint;
      }
      AutoCutover(id, now);
      var allowed := CollectAllowedFingerprints(vendors[id], now);
      verdict := if fingerprint in allowed then Allowed else NotPinned;
    }

    method AutoCutover(id: string, now: real)
      requires id in vendors
      modifies this
      ensures vendors == old(vendors)[id := Cutover(old(vendors)[id], now)]
    {
      var v := vendors[id];
      var activeOriginal, nextPins := v.active, v.next;
      var activeLive, nextLive := LivePins(activeOriginal, now), LivePins(nextPins, now);
      if |activeLive| != |activeOriginal| {
        v := v.(active := activeLive);
      }
      if activeLive == [] && nextLive != [] {
        if activeOriginal != [] {
          v := v.(previous := activeOriginal);
        }
        v := v.(active := nextLive, next := Without(nextPins, nextLive));
      }
      vendors := vendors[id := v];
    }

    static method CollectAllowedFingerprints(v: Vendor, now: real) returns (allowed: set<string>)
      ensures allowed == AllowedFingerprints(v, now)
    {
      allowed := {};
      var pins := v.active + v.next;
      for i := 0 to |pins|
        invariant allowed == set p | p in pins[..i] && Live(p, now) :: p.fingerprint
      {
        if Live(pins[i], now) {
          allowed := allowed + {pins[i].fingerprint};
        }
        assert pins[..i + 1] == pins[..i] + [pins[i]];
      }
      assert pins[..|pins|] == pins;
      if allowed == {} {
        allowed := set f | f in v.allowed;
      }
    }

    method RotateVendorPin(id: string, fingerprint: string)
      modifies this
      ensures forall now :: vendors == Apply(old(vendors), id, now, Rotate(fingerprint))
    {
      var v := VendorOf(vendors, id);
      if fingerprint !in v.allowed {
        v := v.(allowed := v.allowed + [fingerprint]);
      }
      if !Names(v.active, fingerprint) {
        v := v.(active := v.active + [Pin(fingerprint, None, None)]);
      }
      vendors := vendors[id := v];
    }

    method ScheduleNextPin(id: string, fingerprint: string, activateAt: real, expiresAt: Option<real>)
      modifies this
      ensures forall now :: vendors == Apply(old(vendors), id, now, Schedule(fingerprint, activateAt, expiresAt))
    {
      var v := VendorOf(vendors, id);
      if !Names(v.next, fingerprint) {
        v := v.(next := v.next + [Pin(fingerprint, Some(activateAt), expiresAt)]);
      }
      vendors := vendors[id := v];
    }

    method RollbackToPreviousActive(id: string) returns (verdict: Verdict)
      modifies this
      ensures forall now :: vendors == Apply(old(vendors), id, now, Rollback)
      ensures verdict == if id !in old(vendors) then UnknownVendor
                         else if old(vendors)[id].previous == [] then NoPreviousPins else Allowed
    {
      if id !in vendors {
        return UnknownVendor;
      }
      var v := vendors[id];
      if v.previous == [] {
        return NoPreviousPins;
      }
      v := v.(next := v.active + v.next);
      v := v.(active := v.previous);
      v := v.(previous := []);
      vendors := vendors[id := v];
      verdict := Allowed;
    }

    method RevokeVendorPin(id: string, fingerprint: string)
      modifies this
      ensures forall now :: vendors == Apply(old(vendors), id, now, Revoke(fingerprint))
    {
      var v := VendorOf(vendors, id);
      if fingerprint !in v.revoked {
        v := v.(revoked := v.revoked + [fingerprint]);
      }
      vendors := vendors[id := v];
    }
  }
}
