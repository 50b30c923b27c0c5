/** Staging refines a plain record of accepted pins, over any history of operations. */
module CertPinProofs {
  import opened Options
  import opened CertPins
  import opened PinChangeProofs

  /** The reference: every pin, legacy entry and revocation a vendor was ever given, with no staging. */
  datatype Account = Account(pins: set<Pin>, legacy: set<string>, revoked: set<string>)

  type Book = map<string, Account>

  function AccountOf(book: Book, id: string): Account {
    if id in book then book[id] else Account({}, {}, {})
  }

  function Noting(a: Account, v: Vendor, op: Op): Account {
    match op
    case Revoke(f) => a.(revoked := a.revoked + {f})
    case _ =>
      var accepted := AcceptedPin(v, op);
      a.(pins := if accepted.Some? then a.pins + {accepted.value} else a.pins,
         legacy := if op.Rotate? then a.legacy + {op.fingerprint} else a.legacy)
  }

  /** Not revoked, and vouched for by an open accepted pin, or by the legacy list if no accepted pin is open. */
  ghost predicate Vouched(a: Account, now: real, fingerprint: string) {
    && fingerprint !in a.revoked
    && if exists p :: p in a.pins && Open(p, now)
       then exists p :: p in a.pins && Open(p, now) && p.fingerprint == fingerprint
       else fingerprint in a.legacy
  }

  datatype Call = Call(id: string, now: real, op: Op)

  datatype World = World(store: Store, book: Book)

  function Perform(w: World, c: Call): World {
    World(Apply(w.store, c.id, c.now, c.op),
          w.book[c.id := Noting(AccountOf(w.book, c.id), VendorOf(w.store, c.id), c.op)])
  }

  /** The account of a vendor as a file states it. */
  function Read(v: Vendor): Account {
    Account(set p | p in v.active + v.next + v.previous, set f | f in v.allowed, set f | f in v.revoked)
  }

  /** What a series of calls makes of a pinset that was loaded from a file. A missing file is an empty one. */
  function Replay(file: Store, calls: seq<Call>): World {
    if calls == [] then World(file, map id | id in file :: Read(file[id]))
    else Perform(Replay(file, calls[..|calls| - 1]), calls[|calls| - 1])
  }

  function StoreAfter(file: Store, calls: seq<Call>): Store {
    Replay(file, calls).store
  }

  /** The calls follow the moment of loading in order, and `now` follows them. */
  ghost predicate Orderly(from: real, calls: seq<Call>, now: real) {
    && from <= now
    && (forall i, j | 0 <= i < j < |calls| :: calls[i].now <= calls[j].now)
    && (forall i | 0 <= i < |calls| :: from <= calls[i].now <= now)
  }

  /** A pin that will not be live again. */
  predicate Dead(p: Pin, now: real) {
    p.fingerprint == "" || Expired(p, now)
  }

  /**
   * The staged lists hold accepted pins only; an accepted pin that no list holds is dead; an active pin
   * has started; a previous pin has started and is dead.
   */
  ghost predicate Faithful(v: Vendor, a: Account, now: real) {
    && (forall p | p in v.active || p in v.next || p in v.previous :: p in a.pins)
    && (forall p | p in a.pins :: p in v.active || p in v.next || Dead(p, now))
    && (forall p | p in v.active :: Started(p, now))
    && (forall p | p in v.previous :: Started(p, now) && Dead(p, now))
    && (forall f :: f in v.allowed <==> f in a.legacy)
    && (forall f :: f in v.revoked <==> f in a.revoked)
  }

  lemma FaithfulLater(v: Vendor, a: Account, now: real, later: real)
    requires Faithful(v, a, now) && now <= later
    ensures Faithful(v, a, later)
  {
  }

  lemma CutoverIsFaithful(v: Vendor, a: Account, now: real)
    requires Faithful(v, a, now)
    ensures Faithful(Cutover(v, now), a, now)
  {
    assert forall p :: p in v.active && !Live(p, now) ==> Dead(p, now);
  }

  lemma EffectIsFaithful(v: Vendor, a: Account, now: real, op: Op)
    requires Faithful(v, a, now)
    ensures Faithful(Effect(v, now, op), Noting(a, v, op), now)
  {
    if op.Check? {
      CutoverIsFaithful(v, a, now);
    }
  }

  ghost predicate Agree(w: World, now: real) {
    forall id :: Faithful(VendorOf(w.store, id), AccountOf(w.book, id), now)
  }

  lemma PerformAgrees(w: World, c: Call, now: real)
    requires Agree(w, c.now) && c.now <= now
    ensures Agree(Perform(w, c), now)
  {
    var next := Perform(w, c);
    EffectIsFaithful(VendorOf(w.store, c.id), AccountOf(w.book, c.id), c.now, c.op);
    forall id
      ensures Faithful(VendorOf(next.store, id), AccountOf(next.book, id), now)
    {
      assert Faithful(VendorOf(w.store, id), AccountOf(w.book, id), c.now);
      FaithfulLater(VendorOf(next.store, id), AccountOf(next.book, id), c.now, now);
    }
  }

  /** A file whose active pins have started, and whose previous pins have started and are dead. */
  ghost predicate Settled(file: Store, from: real) {
    forall id | id in file ::
      && (forall p | p in file[id].active :: Started(p, from))
      && (forall p | p in file[id].previous :: Started(p, from) && Dead(p, from))
  }

  lemma {:induction false} ReplayAgrees(file: Store, from: real, calls: seq<Call>, now: real)
    requires Settled(file, from) && Orderly(from, calls, now)
    ensures Agree(Replay(file, calls), now)
  {
    if calls == [] {
      LoadedAgrees(file, from, now);
    } else {
      var n := |calls| - 1;
      ReplayAgrees(file, from, calls[..n], calls[n].now);
      PerformAgrees(Replay(file, calls[..n]), calls[n], now);
    }
  }

  lemma LoadedAgrees(file: Store, from: real, now: real)
    requires Settled(file, from) && from <= now
    ensures Agree(Replay(file, []), now)
  {
    var w := Replay(file, []);
    forall id
      ensures Faithful(VendorOf(w.store, id), AccountOf(w.book, id), now)
    {
      if id in file {
        ReadIsFaithful(file[id], from);
        FaithfulLater(file[id], Read(file[id]), from, now);
      }
    }
  }

  lemma ReadIsFaithful(v: Vendor, now: real)
    requires forall p | p in v.active :: Started(p, now)
    requires forall p | p in v.previous :: Started(p, now) && Dead(p, now)
    ensures Faithful(v, Read(v), now)
  {
  }

  lemma StagedIsLive(v: Vendor, a: Account, now: real)
    requires Faithful(v, a, now)
    ensures forall p :: (p in v.active || p in v.next) && Live(p, now) <==> p in a.pins && Live(p, now)
  {
  }

  lemma AdmittedIsVouched(v: Vendor, a: Account, now: real, fingerprint: string)
    requires Faithful(v, a, now)
    ensures Admitted(v, now, fingerprint) <==> Vouched(a, now, fingerprint)
  {
    AdmittedIff(v, now, fingerprint);
    StagedIsLive(v, a, now);
    assert forall p :: Live(p, now) <==> Open(p, now);
    assert forall f :: f in Staged(v, now) <==> exists p :: p in a.pins && Live(p, now) && p.fingerprint == f;
    if p :| p in a.pins && Live(p, now) {
      assert p.fingerprint in Staged(v, now);
    }
  }

  /**
   * After any history of rotations, schedules, checks, rollbacks and revocations, on an empty pinset or one
   * loaded from a settled file, and on a clock that does not run backwards, the staged pinset admits a
   * fingerprint exactly when the plain record vouches for it.
   */
  lemma StagedPinsRefineTheRecord(file: Store, from: real, calls: seq<Call>, id: string, now: real, fingerprint: string)
    requires Settled(file, from) && Orderly(from, calls, now)
    ensures Admits(StoreAfter(file, calls), id, now, fingerprint)
       <==> Vouched(AccountOf(Replay(file, calls).book, id), now, fingerprint)
  {
    ReplayAgrees(file, from, calls, now);
    var w := Replay(file, calls);
    assert Faithful(VendorOf(w.store, id), AccountOf(w.book, id), now);
    AdmittedIsVouched(VendorOf(w.store, id), AccountOf(w.book, id), now, fingerprint);
  }

  // ---------- Revocation ----------

  /** The file or a call revoked the fingerprint. */
  ghost predicate Revoked(file: Store, calls: seq<Call>, id: string, fingerprint: string) {
    fingerprint in VendorOf(file, id).revoked || exists c :: c in calls && c.id == id && c.op == Revoke(fingerprint)
  }

  lemma {:induction false} RevocationIsKept(file: Store, calls: seq<Call>, id: string, fingerprint: string)
    ensures fingerprint in VendorOf(StoreAfter(file, calls), id).revoked <==> Revoked(file, calls, id, fingerprint)
  {
    if calls != [] {
      var n := |calls| - 1;
      RevocationIsKept(file, calls[..n], id, fingerprint);
      assert forall c :: c in calls <==> c in calls[..n] || c == calls[n];
    }
  }

  /** Revocation is final: on any pinset, whatever happens afterwards, and on whatever clock. */
  lemma RevokedStaysRefused(file: Store, calls: seq<Call>, id: string, now: real, fingerprint: string)
    requires Revoked(file, calls, id, fingerprint)
    ensures !Admits(StoreAfter(file, calls), id, now, fingerprint)
  {
    RevocationIsKept(file, calls, id, fingerprint);
  }

  // ---------- Checks and rollbacks ----------

  /** Checks and rollbacks: nothing in them accepts or revokes anything. */
  predicate Quiet(calls: seq<Call>) {
    forall c | c in calls :: c.op.Check? || c.op.Rollback?
  }

  predicate AcceptsNothing(calls: seq<Call>) {
    forall c | c in calls :: !c.op.Rotate? && !c.op.Schedule?
  }

  lemma ReplayMore(file: Store, calls: seq<Call>, c: Call)
    ensures Replay(file, calls + [c]) == Perform(Replay(file, calls), c)
  {
    assert (calls + [c])[..|calls|] == calls;
  }

  lemma SplitLast(calls: seq<Call>, more: seq<Call>)
    requires more != []
    ensures calls + more == calls + more[..|more| - 1] + [more[|more| - 1]]
  {
  }

  lemma {:induction false} QuietKeepsAccounts(file: Store, calls: seq<Call>, quiet: seq<Call>, id: string)
    requires Quiet(quiet)
    ensures AccountOf(Replay(file, calls + quiet).book, id) == AccountOf(Replay(file, calls).book, id)
  {
    if quiet == [] {
      assert calls + quiet == calls;
    } else {
      var n := |quiet| - 1;
      QuietKeepsAccounts(file, calls, quiet[..n], id);
      SplitLast(calls, quiet);
      ReplayMore(file, calls + quiet[..n], quiet[n]);
    }
  }

  lemma PerformKeepsEqual(w: World, x: World, c: Call, id: string)
    requires !c.op.Rotate? && !c.op.Schedule? && AccountOf(w.book, id) == AccountOf(x.book, id)
    ensures AccountOf(Perform(w, c).book, id) == AccountOf(Perform(x, c).book, id)
  {
  }

  lemma {:induction false} AccountsStayEqual(file: Store, calls: seq<Call>, others: seq<Call>, later: seq<Call>,
                                             id: string)
    requires AcceptsNothing(later)
    requires AccountOf(Replay(file, calls).book, id) == AccountOf(Replay(file, others).book, id)
    ensures AccountOf(Replay(file, calls + later).book, id) == AccountOf(Replay(file, others + later).book, id)
  {
    if later == [] {
      assert calls + later == calls && others + later == others;
    } else {
      var n := |later| - 1;
      AccountsStayEqual(file, calls, others, later[..n], id);
      SplitLast(calls, later);
      SplitLast(others, later);
      ReplayMore(file, calls + later[..n], later[n]);
      ReplayMore(file, others + later[..n], later[n]);
      PerformKeepsEqual(Replay(file, calls + later[..n]), Replay(file, others + later[..n]), later[n], id);
    }
  }

  /**
   * Checks and rollbacks, any number of them at any point of a history, change nothing that any vendor has
   * admitted, then or later, until the next rotation or schedule. In between even a cutover or a rollback
   * only moves pins that are dead.
   */
  lemma QuietCallsChangeNoVerdict(file: Store, from: real, calls: seq<Call>, quiet: seq<Call>, later: seq<Call>,
                                  id: string, now: real, fingerprint: string)
    requires Settled(file, from) && Orderly(from, calls + quiet + later, now)
    requires Quiet(quiet) && AcceptsNothing(later)
    ensures Admits(StoreAfter(file, calls + quiet + later), id, now, fingerprint)
       <==> Admits(StoreAfter(file, calls + later), id, now, fingerprint)
  {
    QuietKeepsAccounts(file, calls, quiet, id);
    AccountsStayEqual(file, calls + quiet, calls, later, id);
    OrderlyWithout(from, calls, quiet, later, now);
    StagedPinsRefineTheRecord(file, from, calls + quiet + later, id, now, fingerprint);
    StagedPinsRefineTheRecord(file, from, calls + later, id, now, fingerprint);
  }

  lemma OrderlyWithout(from: real, calls: seq<Call>, quiet: seq<Call>, later: seq<Call>, now: real)
    requires Orderly(from, calls + quiet + later, now)
    ensures Orderly(from, calls + later, now)
  {
    var all, some := calls + quiet + later, calls + later;
    forall i, j | 0 <= i < j < |some|
      ensures some[i].now <= some[j].now
    {
      var k, l := if i < |calls| then i else i + |quiet|, if j < |calls| then j else j + |quiet|;
      assert some[i] == all[k] && some[j] == all[l];
    }
    forall i | 0 <= i < |some|
      ensures from <= some[i].now <= now
    {
      assert some[i] == all[if i < |calls| then i else i + |quiet|];
    }
  }

  /** Two records of one account have the same live pins, revocations and legacy list. */
  lemma SameAccount(v: Vendor, w: Vendor, a: Account, now: real)
    requires Faithful(v, a, now) && Faithful(w, a, now)
    ensures Staged(v, now) == Staged(w, now)
    ensures forall f :: (f in v.revoked <==> f in w.revoked) && (f in v.allowed <==> f in w.allowed)
  {
    StagedIsLive(v, a, now);
    StagedIsLive(w, a, now);
    assert forall p :: (p in v.active + v.next && Live(p, now)) <==> (p in w.active + w.next && Live(p, now));
  }

  lemma QuietKeepsTheRecord(file: Store, from: real, calls: seq<Call>, quiet: seq<Call>, later: seq<Call>, id: string,
                            at: real, now: real)
    requires Settled(file, from) && Orderly(from, calls + quiet + later, at) && at <= now
    requires Quiet(quiet) && AcceptsNothing(later)
    ensures var v := VendorOf(StoreAfter(file, calls + quiet + later), id);
      var w := VendorOf(StoreAfter(file, calls + later), id);
      && Staged(v, now) == Staged(w, now)
      && forall f :: (f in v.revoked <==> f in w.revoked) && (f in v.allowed <==> f in w.allowed)
  {
    QuietKeepsAccounts(file, calls, quiet, id);
    AccountsStayEqual(file, calls + quiet, calls, later, id);
    OrderlyWithout(from, calls, quiet, later, at);
    OrderlyLater(from, calls + quiet + later, at, now);
    OrderlyLater(from, calls + later, at, now);
    ReplayAgrees(file, from, calls + quiet + later, now);
    ReplayAgrees(file, from, calls + later, now);
    var w, x := Replay(file, calls + quiet + later), Replay(file, calls + later);
    assert Faithful(VendorOf(w.store, id), AccountOf(w.book, id), now);
    assert Faithful(VendorOf(x.store, id), AccountOf(x.book, id), now);
    SameAccount(VendorOf(w.store, id), VendorOf(x.store, id), AccountOf(w.book, id), now);
  }

  /** Nothing but the pins of the rotated or scheduled fingerprint decides about it. */
  predicate Undecided(v: Vendor, now: real, fingerprint: string) {
    fingerprint !in v.revoked && fingerprint != "" && fingerprint !in Staged(v, now)
  }

  /**
   * The next rotation can tell whether there were checks or rollbacks before it: exactly if they changed
   * whether the active list names its fingerprint, and neither a revocation nor a live pin decides about it,
   * nor the legacy list for want of any live pin.
   */
  lemma QuietCallsShowInRotationIff(file: Store, from: real, calls: seq<Call>, quiet: seq<Call>, later: seq<Call>,
                                    id: string, at: real, now: real, fingerprint: string)
    requires Settled(file, from) && Orderly(from, calls + quiet + later, at) && at <= now
    requires Quiet(quiet) && AcceptsNothing(later)
    ensures var seen, unseen := StoreAfter(file, calls + quiet + later), StoreAfter(file, calls + later);
      var v, w := VendorOf(seen, id), VendorOf(unseen, id);
      (Admits(Apply(seen, id, at, Rotate(fingerprint)), id, now, fingerprint) <==>
       Admits(Apply(unseen, id, at, Rotate(fingerprint)), id, now, fingerprint)) <==>
        || !Undecided(v, now, fingerprint) || Staged(v, now) == {}
        || (Names(v.active, fingerprint) <==> Names(w.active, fingerprint))
  {
    QuietKeepsTheRecord(file, from, calls, quiet, later, id, at, now);
    RotationAdmitsIff(StoreAfter(file, calls + quiet + later), id, at, now, fingerprint);
    RotationAdmitsIff(StoreAfter(file, calls + later), id, at, now, fingerprint);
  }

  /** The same for the next schedule, which the next list decides about. */
  lemma QuietCallsShowInScheduleIff(file: Store, from: real, calls: seq<Call>, quiet: seq<Call>, later: seq<Call>,
                                    id: string, at: real, now: real, pin: Pin)
    requires Settled(file, from) && Orderly(from, calls + quiet + later, at) && at <= now
    requires Quiet(quiet) && AcceptsNothing(later) && pin.notBefore.Some?
    ensures var seen, unseen := StoreAfter(file, calls + quiet + later), StoreAfter(file, calls + later);
      var v, w := VendorOf(seen, id), VendorOf(unseen, id);
      var f, op := pin.fingerprint, Schedule(pin.fingerprint, pin.notBefore.value, pin.notAfter);
      (Admits(Apply(seen, id, at, op), id, now, f) <==> Admits(Apply(unseen, id, at, op), id, now, f)) <==>
        || !Undecided(v, now, f) || (Staged(v, now) == {} && f in v.allowed) || !Live(pin, now)
        || (Names(v.next, f) <==> Names(w.next, f))
  {
    QuietKeepsTheRecord(file, from, calls, quiet, later, id, at, now);
    var f := pin.fingerprint;
    ScheduleAdmitsIff(StoreAfter(file, calls + quiet + later), id, at, now, f, pin.notBefore.value, pin.notAfter);
    ScheduleAdmitsIff(StoreAfter(file, calls + later), id, at, now, f, pin.notBefore.value, pin.notAfter);
  }

  lemma OrderlyLater(from: real, calls: seq<Call>, at: real, now: real)
    requires Orderly(from, calls, at) && at <= now
    ensures Orderly(from, calls, now)
  {
  }

  /** No previous pin is live, after any history, then or later. */
  lemma PreviousPinsAreDead(file: Store, from: real, calls: seq<Call>, id: string, now: real)
    requires Settled(file, from) && Orderly(from, calls, now)
    ensures LiveNames(VendorOf(StoreAfter(file, calls), id).previous, now) == {}
  {
    ReplayAgrees(file, from, calls, now);
    var w := Replay(file, calls);
    assert Faithful(VendorOf(w.store, id), AccountOf(w.book, id), now);
  }

  /**
   * A rotation right after a rollback may tell that there was one. After any history, exactly when its verdict
   * depends on it: a fingerprint that only the previous list names is refused after the rollback, and one
   * that only the active list names is refused without it, if other pins are live and none is for it.
   */
  lemma RollbackShowsInNextRotationIff(file: Store, from: real, calls: seq<Call>, id: string, at: real, now: real,
                                       fingerprint: string)
    requires Settled(file, from) && Orderly(from, calls, at) && at <= now
    requires VendorOf(StoreAfter(file, calls), id).previous != []
    ensures var v, rotate := VendorOf(StoreAfter(file, calls), id), Call(id, at, Rotate(fingerprint));
      var after := Admits(StoreAfter(file, calls + [Call(id, at, Rollback)] + [rotate]), id, now, fingerprint);
      var without := Admits(StoreAfter(file, calls + [rotate]), id, now, fingerprint);
      (after <==> without) <==>
        || fingerprint in v.revoked || fingerprint == ""
        || fingerprint in Staged(v, now) || Staged(v, now) == {}
        || (Names(v.previous, fingerprint) <==> Names(v.active, fingerprint))
  {
    var v := VendorOf(StoreAfter(file, calls), id);
    var rollback, rotate := Call(id, at, Rollback), Call(id, at, Rotate(fingerprint));
    ReplayMore(file, calls, rollback);
    ReplayMore(file, calls + [rollback], rotate);
    ReplayMore(file, calls, rotate);
    OrderlyLater(from, calls, at, now);
    PreviousPinsAreDead(file, from, calls, id, now);
    RollbackShowsInRotationIff(v, at, at, now, fingerprint);
  }

  // ---------- Rotations and schedules that are lost ----------

  /** A pin whose window begins at zero. */
  function Until(f: string, expiry: real): Pin {
    Pin(f, Some(0.0), Some(expiry))
  }

  function Unlimited(g: string): Pin {
    Pin(g, Some(0.0), None)
  }

  /** Three calls after which only a pin that expires at `expiry` is active, and another one is waiting. */
  function Ageing(id: string, f: string, g: string, expiry: real): seq<Call> {
    [Call(id, 0.0, Schedule(f, 0.0, Some(expiry))), Call(id, 0.0, Check(f)), Call(id, 0.0, Schedule(g, 0.0, None))]
  }

  lemma StoreMore(calls: seq<Call>, c: Call, after: Vendor)
    requires c.id in StoreAfter(map[], calls) || c.op.Schedule? || c.op.Rotate?
    requires Effect(VendorOf(StoreAfter(map[], calls), c.id), c.now, c.op) == after
    ensures StoreAfter(map[], calls + [c]) == StoreAfter(map[], calls)[c.id := after]
  {
    ReplayMore(map[], calls, c);
  }

  lemma AgeingVendor(f: string, g: string, expiry: real)
    requires f != "" && expiry >= 0.0
    ensures var p := Until(f, expiry);
      && Effect(NEW_VENDOR, 0.0, Schedule(f, 0.0, Some(expiry))) == Vendor([], [], [p], [], [])
      && Effect(Vendor([], [], [p], [], []), 0.0, Check(f)) == Vendor([], [p], [], [], [])
      && Effect(Vendor([], [p], [], [], []), 0.0, Schedule(g, 0.0, None)) == Vendor([], [p], [Unlimited(g)], [], [])
  {
    var p := Until(f, expiry);
    assert [p][1..] == [];
    assert LivePins([p], 0.0) == [p] && Without([p], [p]) == [];
  }

  lemma AgeingStore(id: string, f: string, g: string, expiry: real)
    requires f != "" && expiry >= 0.0
    ensures StoreAfter(map[], Ageing(id, f, g, expiry)) ==
      map[id := Vendor([], [Until(f, expiry)], [Unlimited(g)], [], [])]
  {
    AgeingVendor(f, g, expiry);
    var p, c := Until(f, expiry), Ageing(id, f, g, expiry);
    StoreMore([], c[0], Vendor([], [], [p], [], []));
    var one := [] + [c[0]];
    StoreMore(one, c[1], Vendor([], [p], [], [], []));
    var two := one + [c[1]];
    StoreMore(two, c[2], Vendor([], [p], [Unlimited(g)], [], []));
    assert two + [c[2]] == c;
  }

  /** Whether a rotation at the end of a history is honoured. */
  lemma LastRotation(calls: seq<Call>, id: string, at: real, now: real, f: string)
    ensures Admits(StoreAfter(map[], calls + [Call(id, at, Rotate(f))]), id, now, f) <==>
      RotationHolds(VendorOf(StoreAfter(map[], calls), id), now, f)
  {
    ReplayMore(map[], calls, Call(id, at, Rotate(f)));
    RotationAdmitsIff(StoreAfter(map[], calls), id, at, now, f);
  }

  lemma LastSchedule(calls: seq<Call>, id: string, at: real, now: real, pin: Pin)
    requires pin.notBefore.Some?
    ensures var op := Schedule(pin.fingerprint, pin.notBefore.value, pin.notAfter);
      Admits(StoreAfter(map[], calls + [Call(id, at, op)]), id, now, pin.fingerprint) <==>
      ScheduleHolds(VendorOf(StoreAfter(map[], calls), id), now, pin)
  {
    var op := Schedule(pin.fingerprint, pin.notBefore.value, pin.notAfter);
    ReplayMore(map[], calls, Call(id, at, op));
    ScheduleAdmitsIff(StoreAfter(map[], calls), id, at, now, pin.fingerprint, pin.notBefore.value, pin.notAfter);
  }

  lemma OrderlyMore(calls: seq<Call>, c: Call, now: real)
    requires Orderly(0.0, calls, c.now) && c.now <= now && RevokesNothing(calls) && !c.op.Revoke?
    ensures Orderly(0.0, calls + [c], now) && RevokesNothing(calls + [c])
  {
  }

  predicate RevokesNothing(calls: seq<Call>) {
    forall c | c in calls :: !c.op.Revoke?
  }

  /**
   * Histories in which a rotation is lost, although nothing was ever revoked: the fingerprint is refused
   * once the pin that the active list had for it is dead, before the rotation or after it.
   */
  lemma RotationCanBeLost(id: string, f: string, g: string, expiry: real, at: real, now: real)
    requires f != "" && g != "" && f != g && 0.0 <= expiry < now && 0.0 <= at <= now
    ensures var calls := Ageing(id, f, g, expiry) + [Call(id, at, Rotate(f))];
      && Orderly(0.0, calls, now) && RevokesNothing(calls)
      && !Admits(StoreAfter(map[], calls), id, now, f)
  {
    var calls := Ageing(id, f, g, expiry);
    AgeingStore(id, f, g, expiry);
    OrderlyMore(calls, Call(id, at, Rotate(f)), now);
    LastRotation(calls, id, at, now, f);
    AgedOutHolds(f, g, expiry, now);
  }

  lemma AgedOutHolds(f: string, g: string, expiry: real, now: real)
    requires g != "" && f != g && 0.0 <= expiry < now
    ensures !RotationHolds(Vendor([], [Until(f, expiry)], [Unlimited(g)], [], []), now, f)
    ensures RotationHolds(Vendor([], [Unlimited(g)], [], [], [Until(f, expiry)]), now, f) <==> f != ""
  {
    var v := Vendor([], [Until(f, expiry)], [Unlimited(g)], [], []);
    assert Until(f, expiry) in v.active;
    assert v.active + v.next == [Until(f, expiry), Unlimited(g)] && Live(Unlimited(g), now);
    assert g in Staged(v, now);
    var w := Vendor([], [Unlimited(g)], [], [], [Until(f, expiry)]);
    assert w.active + w.next == [Unlimited(g)];
    assert g in Staged(w, now);
  }

  /** A vendor that was given `g` by rotation and `f` by a schedule. */
  function Waiting(id: string, f: string, g: string, expiry: real): seq<Call> {
    [Call(id, 0.0, Rotate(g)), Call(id, 0.0, Schedule(f, 0.0, Some(expiry)))]
  }

  lemma WaitingStore(id: string, f: string, g: string, expiry: real)
    ensures StoreAfter(map[], Waiting(id, f, g, expiry)) ==
      map[id := Vendor([g], [Pin(g, None, None)], [Until(f, expiry)], [], [])]
  {
    var c := Waiting(id, f, g, expiry);
    var rotated := Vendor([g], [Pin(g, None, None)], [], [], []);
    StoreMore([], c[0], rotated);
    StoreMore([] + [c[0]], c[1], rotated.(next := [Until(f, expiry)]));
    assert [] + [c[0]] + [c[1]] == c;
  }

  /**
   * Histories in which a schedule is lost, although nothing was ever revoked: a fingerprint whose first
   * window has passed is refused inside a second window that it is scheduled for.
   */
  lemma ScheduleCanBeLost(id: string, f: string, g: string, expiry: real, at: real, again: Pin, now: real)
    requires g != "" && f != g && 0.0 <= expiry < now && 0.0 <= at <= now
    requires again.fingerprint == f && again.notBefore.Some? && Live(again, now)
    ensures var calls := Waiting(id, f, g, expiry) + [Call(id, at, Schedule(f, again.notBefore.value, again.notAfter))];
      && Orderly(0.0, calls, now) && RevokesNothing(calls)
      && !Admits(StoreAfter(map[], calls), id, now, f)
  {
    var calls := Waiting(id, f, g, expiry);
    WaitingStore(id, f, g, expiry);
    OrderlyMore(calls, Call(id, at, Schedule(f, again.notBefore.value, again.notAfter)), now);
    LastSchedule(calls, id, at, now, again);
    WaitedOutHolds(f, g, expiry, again, now);
  }

  lemma WaitedOutHolds(f: string, g: string, expiry: real, again: Pin, now: real)
    requires g != "" && f != g && 0.0 <= expiry < now && again.fingerprint == f
    ensures !ScheduleHolds(Vendor([g], [Pin(g, None, None)], [Until(f, expiry)], [], []), now, again)
  {
    var v := Vendor([g], [Pin(g, None, None)], [Until(f, expiry)], [], []);
    assert Until(f, expiry) in v.next;
    assert v.active + v.next == [Pin(g, None, None), Until(f, expiry)] && Live(Pin(g, None, None), now);
    assert g in Staged(v, now);
  }

  lemma CutOverVendor(f: string, g: string, expiry: real, at: real)
    requires g != "" && 0.0 <= expiry < at
    ensures Effect(Vendor([], [Until(f, expiry)], [Unlimited(g)], [], []), at, Check(g)) ==
      Vendor([], [Unlimited(g)], [], [], [Until(f, expiry)])
  {
    assert LivePins([Until(f, expiry)], at) == [];
    assert [Unlimited(g)][1..] == [];
    assert LivePins([Unlimited(g)], at) == [Unlimited(g)] && Without([Unlimited(g)], [Unlimited(g)]) == [];
  }

  lemma CutOverStore(id: string, f: string, g: string, expiry: real, at: real)
    requires f != "" && g != "" && 0.0 <= expiry < at
    ensures StoreAfter(map[], Ageing(id, f, g, expiry) + [Call(id, at, Check(g))]) ==
      map[id := Vendor([], [Unlimited(g)], [], [], [Until(f, expiry)])]
  {
    AgeingStore(id, f, g, expiry);
    CutOverVendor(f, g, expiry, at);
    StoreMore(Ageing(id, f, g, expiry), Call(id, at, Check(g)), Vendor([], [Unlimited(g)], [], [], [Until(f, expiry)]));
  }

  lemma OnlyPreviousNames(f: string, g: string, expiry: real, now: real)
    requires g != "" && f != g && 0.0 <= expiry < now
    ensures var v := Vendor([], [Unlimited(g)], [], [], [Until(f, expiry)]);
      && Staged(v, now) == {g} && Names(v.previous, f) && !Names(v.active, f)
  {
    var v := Vendor([], [Unlimited(g)], [], [], [Until(f, expiry)]);
    assert v.active + v.next == [Unlimited(g)] && Live(Unlimited(g), now);
    assert Until(f, expiry) in v.previous;
  }

  /**
   * Histories in which a rollback loses the rotation that follows it: the pin that has expired stands in
   * the active list again. Without the rollback the rotated fingerprint is admitted.
   */
  lemma RollbackCanLoseRotation(id: string, f: string, g: string, expiry: real, at: real, now: real)
    requires f != "" && g != "" && f != g && 0.0 <= expiry < at <= now
    ensures var calls := Ageing(id, f, g, expiry) + [Call(id, at, Check(g))];
      var rollback, rotate := Call(id, at, Rollback), Call(id, at, Rotate(f));
      && Orderly(0.0, calls, at) && RevokesNothing(calls)
      && Admits(StoreAfter(map[], calls + [rotate]), id, now, f)
      && !Admits(StoreAfter(map[], calls + [rollback] + [rotate]), id, now, f)
  {
    var calls := Ageing(id, f, g, expiry) + [Call(id, at, Check(g))];
    CutOverStore(id, f, g, expiry, at);
    OrderlyMore(Ageing(id, f, g, expiry), Call(id, at, Check(g)), at);
    LastRotation(calls, id, at, now, f);
    AgedOutHolds(f, g, expiry, now);
    OnlyPreviousNames(f, g, expiry, now);
    RollbackShowsInNextRotationIff(map[], 0.0, calls, id, at, now, f);
  }
}
