/** The deterministic obstacle tracker: greedy nearest association, expiry, and generated track ids. */
module Tracker {
  import opened Options
  import opened Sensing

  datatype Track = Track(x: real, y: real, timestamp: real, source: string, ageFrames: int)

  type Tracks = map<string, Track>

  /** The tracker configuration; construction clamps both limits at zero. */
  datatype Limits = Limits(distance: real, age: real)

  datatype TrackerState = TrackerState(tracks: Tracks, counter: nat)

  // ---------- Track ids ----------

  /** Lexicographic order of texts by character. */
  predicate TextBelow(a: string, b: string) {
    if a == [] || b == [] then |a| < |b|
    else a[0] < b[0] || (a[0] == b[0] && TextBelow(a[1..], b[1..]))
  }

  function Digit(d: nat): char
    requires d < 10
  {
    ('0' as int + d) as char
  }

  function Digits(n: nat): string {
    if n < 10 then [Digit(n)] else Digits(n / 10) + [Digit(n % 10)]
  }

  function PadLeft(s: string, width: nat): string {
    if |s| >= width then s else "0" + PadLeft(s, width - 1)
  }

  function Padded(n: nat): string {
    PadLeft(Digits(n), 4)
  }

  /** A generated id: the source, a dash, and the counter with at least four digits. */
  function TrackId(source: string, counter: nat): string {
    source + "-" + Padded(counter)
  }

  function ValueOf(c: char): nat {
    if '0' <= c <= '9' then (c as int - '0' as int) as nat else 0
  }

  /** The number a text of digits stands for. */
  function Read(s: string): nat {
    if s == [] then 0 else 10 * Read(s[..|s| - 1]) + ValueOf(s[|s| - 1])
  }

  lemma ReadMore(s: string, c: char)
    ensures Read(s + [c]) == 10 * Read(s) + ValueOf(c)
  {
    assert (s + [c])[..|s|] == s;
  }

  predicate AllDigits(s: string) {
    forall i | 0 <= i < |s| :: '0' <= s[i] <= '9'
  }

  lemma {:induction false} DigitsRead(n: nat)
    ensures Read(Digits(n)) == n && AllDigits(Digits(n))
  {
    if n < 10 {
      ReadMore([], Digit(n));
      assert [] + [Digit(n)] == [Digit(n)];
    } else {
      DigitsRead(n / 10);
      ReadMore(Digits(n / 10), Digit(n % 10));
    }
  }

  lemma {:induction false} LeadingZero(s: string)
    ensures Read("0" + s) == Read(s)
  {
    if s == [] {
      ReadMore([], '0');
      assert "0" + s == [] + ['0'];
    } else {
      var n := |s| - 1;
      LeadingZero(s[..n]);
      ReadMore("0" + s[..n], s[n]);
      ReadMore(s[..n], s[n]);
      assert "0" + s == "0" + s[..n] + [s[n]] && s == s[..n] + [s[n]];
    }
  }

  lemma {:induction false} PaddingReads(s: string, width: nat)
    requires AllDigits(s)
    ensures Read(PadLeft(s, width)) == Read(s) && AllDigits(PadLeft(s, width))
  {
    if |s| < width {
      PaddingReads(s, width - 1);
      LeadingZero(PadLeft(s, width - 1));
    }
  }

  lemma PaddedReads(n: nat)
    ensures Read(Padded(n)) == n && AllDigits(Padded(n))
  {
    DigitsRead(n);
    PaddingReads(Digits(n), 4);
  }

  lemma {:induction false} DigitsLead(n: nat)
    ensures |Digits(n)| >= 1 && (n >= 1 ==> Digits(n)[0] != '0') && (|Digits(n)| > 1 ==> n >= 1)
  {
    if n >= 10 {
      DigitsLead(n / 10);
    }
  }

  lemma {:induction false} PaddedLength(s: string, width: nat)
    ensures |PadLeft(s, width)| >= width && (|s| >= width ==> PadLeft(s, width) == s)
    ensures |s| < width ==> |PadLeft(s, width)| == width
    decreases width
  {
    if |s| < width {
      PaddedLength(s, width - 1);
    }
  }

  /** A generated id: the source, a dash, and the counter in decimal, with zeros in front up to four digits. */
  lemma TrackIdFormat(source: string, counter: nat)
    ensures var id := TrackId(source, counter);
      && |id| > |source| && id[..|source|] == source && id[|source|] == '-'
      && var digits := id[|source| + 1..];
      && AllDigits(digits) && Read(digits) == counter
      && |digits| >= 4 && (|digits| > 4 ==> digits[0] != '0')
  {
    PaddedReads(counter);
    PaddedLength(Digits(counter), 4);
    DigitsLead(counter);
    assert TrackId(source, counter)[|source| + 1..] == Padded(counter);
  }

  /** The last dash of an id is where its source ends: ids are equal only for equal sources and counters. */
  lemma TrackIdsSeparate(source: string, counter: nat, source': string, counter': nat)
    requires TrackId(source, counter) == TrackId(source', counter')
    ensures source == source' && counter == counter'
  {
    PaddedReads(counter);
    PaddedReads(counter');
    LastDash(source, Padded(counter), source', Padded(counter'));
    LastDash(source', Padded(counter'), source, Padded(counter));
    var id := TrackId(source, counter);
    assert id[..|source|] == source && id[|source| + 1..] == Padded(counter);
    assert id[..|source'|] == source' && id[|source'| + 1..] == Padded(counter');
  }

  lemma LastDash(a: string, p: string, b: string, q: string)
    requires a + "-" + p == b + "-" + q
    ensures |a| <= |b| || !AllDigits(q)
  {
    if |a| > |b| {
      var id := a + "-" + p;
      assert id[|a|] == '-' && (b + "-" + q)[|a|] == q[|a| - |b| - 1];
    }
  }

  // ---------- Association ----------

  function SquaredDistance(o: DetectedObstacle, t: Track): real {
    Square(o.x - t.x) + Square(o.y - t.y)
  }

  /** A live track the obstacle may continue. Distances are compared through their squares. */
  predicate Candidate(limits: Limits, tracks: Tracks, taken: set<string>, o: DetectedObstacle, id: string) {
    && id in tracks && id !in taken
    && tracks[id].source == o.source
    && SquaredDistance(o, tracks[id]) <= Square(limits.distance)
  }

  /** Nearer, or equally near with the smaller id. */
  predicate Closer(tracks: Tracks, o: DetectedObstacle, a: string, b: string)
    requires a in tracks && b in tracks
  {
    SquaredDistance(o, tracks[a]) < SquaredDistance(o, tracks[b]) ||
    (SquaredDistance(o, tracks[a]) == SquaredDistance(o, tracks[b]) && TextBelow(a, b))
  }

  ghost predicate Nearest(limits: Limits, tracks: Tracks, taken: set<string>, o: DetectedObstacle, id: string) {
    && Candidate(limits, tracks, taken, o, id)
    && forall other | Candidate(limits, tracks, taken, o, other) && other != id :: Closer(tracks, o, id, other)
  }

  lemma {:induction false} TextOrder(a: string, b: string)
    ensures !(TextBelow(a, b) && TextBelow(b, a)) && !TextBelow(a, a)
    ensures a == b || TextBelow(a, b) || TextBelow(b, a)
    decreases |a|
  {
    if a != [] && b != [] {
      TextOrder(a[1..], b[1..]);
      TextOrder(a[1..], a[1..]);
      if a[0] == b[0] && a[1..] == b[1..] {
        assert a == [a[0]] + a[1..] && b == [b[0]] + b[1..];
      }
    } else if a != [] {
      TextOrder(a[1..], a[1..]);
    }
  }

  lemma {:induction false} TextOrderTransitive(a: string, b: string, c: string)
    requires TextBelow(a, b) && TextBelow(b, c)
    ensures TextBelow(a, c)
    decreases |a|
  {
    if a != [] && b != [] && c != [] && a[0] == b[0] == c[0] {
      TextOrderTransitive(a[1..], b[1..], c[1..]);
    }
  }

  lemma CloserIsStrictOrder(tracks: Tracks, o: DetectedObstacle, a: string, b: string, c: string)
    requires a in tracks && b in tracks && c in tracks
    ensures !(Closer(tracks, o, a, b) && Closer(tracks, o, b, a))
    ensures a == b || Closer(tracks, o, a, b) || Closer(tracks, o, b, a)
    ensures Closer(tracks, o, a, b) && Closer(tracks, o, b, c) ==> Closer(tracks, o, a, c)
  {
    TextOrder(a, b);
    if TextBelow(a, b) && TextBelow(b, c) {
      TextOrderTransitive(a, b, c);
    }
  }

  /** There is at most one nearest track: in whatever order the table is searched, the match is the same. */
  lemma NearestIsUnique(limits: Limits, tracks: Tracks, taken: set<string>, o: DetectedObstacle, a: string, b: string)
    requires Nearest(limits, tracks, taken, o, a) && Nearest(limits, tracks, taken, o, b)
    ensures a == b
  {
    CloserIsStrictOrder(tracks, o, a, b, a);
  }

  /** The match of an obstacle: a supplied id, the nearest candidate, or nothing. */
  ghost function Match(limits: Limits, tracks: Tracks, taken: set<string>, o: DetectedObstacle): Option<string> {
    if exists id :: Nearest(limits, tracks, taken, o, id) then
      var id :| Nearest(limits, tracks, taken, o, id);
      Some(id)
    else None
  }

  // ---------- One update ----------

  function Pruned(limits: Limits, tracks: Tracks, now: real): Tracks {
    map id | id in tracks && !(now - tracks[id].timestamp > limits.age) :: tracks[id]
  }

  function Velocity(previous: Option<Track>, o: DetectedObstacle, now: real): (Option<real>, Option<real>) {
    if previous.None? || now - previous.value.timestamp <= 0.0 then (None, None)
    else
      var dt := now - previous.value.timestamp;
      (Some((o.x - previous.value.x) / dt), Some((o.y - previous.value.y) / dt))
  }

  function Find(tracks: Tracks, id: string): Option<Track> {
    if id in tracks then Some(tracks[id]) else None
  }

  function AgeAfter(previous: Option<Track>): int {
    if previous.Some? then previous.value.ageFrames + 1 else 1
  }

  function Tracked(tracks: Tracks, o: DetectedObstacle, id: string, now: real): DetectedObstacle {
    var previous := Find(tracks, id);
    var (vx, vy) := Velocity(previous, o, now);
    o.(trackId := Some(id), vx := vx, vy := vy, ageFrames := AgeAfter(previous))
  }

  predicate Supplied(o: DetectedObstacle) {
    o.trackId.Some? && o.trackId.value != ""
  }

  /** The id an obstacle gets, and the counter afterwards. */
  ghost function Assign(limits: Limits, s: TrackerState, taken: set<string>, o: DetectedObstacle): (string, nat) {
    if Supplied(o) then (o.trackId.value, s.counter)
    else match Match(limits, s.tracks, taken, o)
    case Some(id) => (id, s.counter)
    case None => (TrackId(o.source, s.counter), s.counter + 1)
  }

  function Observed(s: TrackerState, o: DetectedObstacle, id: string, counter: nat, now: real): TrackerState {
    TrackerState(s.tracks[id := Track(o.x, o.y, now, o.source, AgeAfter(Find(s.tracks, id)))], counter)
  }

  /** Associates the obstacles of a frame in order, given the ids already assigned in this frame. */
  ghost function Associate(limits: Limits, s: TrackerState, taken: set<string>, obstacles: seq<DetectedObstacle>,
                           now: real)
    : (TrackerState, seq<DetectedObstacle>)
    decreases |obstacles|
  {
    if obstacles == [] then (s, [])
    else
      var (id, counter) := Assign(limits, s, taken, obstacles[0]);
      var (last, rest) := Associate(limits, Observed(s, obstacles[0], id, counter, now), taken + {id},
                                    obstacles[1..], now);
      (last, [Tracked(s.tracks, obstacles[0], id, now)] + rest)
  }

  lemma AssociateStep(limits: Limits, s: TrackerState, taken: set<string>, obstacles: seq<DetectedObstacle>, i: nat,
                      now: real)
    requires i < |obstacles|
    ensures var (id, counter) := Assign(limits, s, taken, obstacles[i]);
      var (last, rest) := Associate(limits, Observed(s, obstacles[i], id, counter, now), taken + {id},
                                    obstacles[i + 1..], now);
      Associate(limits, s, taken, obstacles[i..], now) == (last, [Tracked(s.tracks, obstacles[i], id, now)] + rest)
  {
    assert obstacles[i..][0] == obstacles[i] && obstacles[i..][1..] == obstacles[i + 1..];
  }

  ghost function Updated(limits: Limits, s: TrackerState, obstacles: seq<DetectedObstacle>, now: real)
    : (TrackerState, seq<DetectedObstacle>)
  {
    Associate(limits, s.(tracks := Pruned(limits, s.tracks, now)), {}, obstacles, now)
  }

  class DeterministicObstacleTracker {
    const limits: Limits
    var tracks: Tracks
    var counter: nat

    ghost function View(): TrackerState
      reads this
    {
      TrackerState(tracks, counter)
    }

    constructor (maxDistance: real, maxAge: real)
      ensures limits == Limits(Max(0.0, maxDistance), Max(0.0, maxAge))
      ensures View() == TrackerState(map[], 1)
    {
      limits := Limits(Max(0.0, maxDistance), Max(0.0, maxAge));
      tracks, counter := map[], 1;
    }

    method PruneExpired(now: real)
      modifies this`tracks
      ensures tracks == Pruned(limits, old(tracks), now)
    {
      var expired := set id | id in tracks && now - tracks[id].timestamp > limits.age;
      tracks := tracks - expired;
    }

    /** Searches the table in any order; ties are broken by the id. */
    method NearestAssociatedTrack(o: DetectedObstacle, taken: set<string>) returns (id: Option<string>)
      ensures id == Match(limits, tracks, taken, o)
    {
      id := None;
      var remaining := tracks.Keys;
      while remaining != {}
        invariant remaining <= tracks.Keys
        invariant id.Some? ==> id.value !in remaining && Candidate(limits, tracks, taken, o, id.value)
        invariant forall other | other in tracks && other !in remaining && Candidate(limits, tracks, taken, o, other) ::
          id.Some? && (other == id.value || Closer(tracks, o, id.value, other))
        decreases |remaining|
      {
        var next :| next in remaining;
        remaining := remaining - {next};
        if Candidate(limits, tracks, taken, o, next) {
          ghost var before := id;
          if id.Some? {
            CloserIsStrictOrder(tracks, o, next, id.value, next);
          }
          if id.None? || Closer(tracks, o, next, id.value) {
            id := Some(next);
          }
          forall other | other in tracks && other !in remaining && Candidate(limits, tracks, taken, o, other)
            ensures other == id.value || Closer(tracks, o, id.value, other)
          {
            if before.Some? {
              CloserIsStrictOrder(tracks, o, next, before.value, other);
            }
          }
        }
      }
      if id.Some? {
        assert Nearest(limits, tracks, taken, o, id.value);
        NearestIsMatch(limits, tracks, taken, o, id.value);
      } else {
        NoCandidateNoMatch(limits, tracks, taken, o);
      }
    }

    method AssignTrackId(o: DetectedObstacle, taken: set<string>) returns (id: string)
      modifies this`counter
      ensures (id, counter) == Assign(limits, old(View()), taken, o)
    {
      if Supplied(o) {
        return o.trackId.value;
      }
      var associated := NearestAssociatedTrack(o, taken);
      if associated.Some? {
        return associated.value;
      }
      id := TrackId(o.source, counter);
      counter := counter + 1;
    }

    method Update(obstacles: seq<DetectedObstacle>, now: real) returns (tracked: seq<DetectedObstacle>)
      modifies this
      ensures (View(), tracked) == Updated(limits, old(View()), obstacles, now)
    {
      PruneExpired(now);
      var taken: set<string>;
      taken, tracked := {}, [];
      ghost var all := Updated(limits, old(View()), obstacles, now);
      var i := 0;
      assert obstacles[0..] == obstacles;
      while i < |obstacles|
        invariant 0 <= i <= |obstacles|
        invariant var (last, rest) := Associate(limits, View(), taken, obstacles[i..], now);
          all.0 == last && all.1 == tracked + rest
      {
        var o := obstacles[i];
        ghost var s := View();
        AssociateStep(limits, s, taken, obstacles, i, now);
        var id := AssignTrackId(o, taken);
        var previous := Find(tracks, id);
        tracked := tracked + [Tracked(tracks, o, id, now)];
        tracks := tracks[id := Track(o.x, o.y, now, o.source, AgeAfter(previous))];
        assert View() == Observed(s, o, id, counter, now);
        taken := taken + {id};
        i := i + 1;
      }
      assert tracked == all.1;
    }
  }

  lemma NearestIsMatch(limits: Limits, tracks: Tracks, taken: set<string>, o: DetectedObstacle, id: string)
    requires Nearest(limits, tracks, taken, o, id)
    ensures Match(limits, tracks, taken, o) == Some(id)
  {
    var m := Match(limits, tracks, taken, o).value;
    NearestIsUnique(limits, tracks, taken, o, id, m);
  }

  lemma NoCandidateNoMatch(limits: Limits, tracks: Tracks, taken: set<string>, o: DetectedObstacle)
    requires forall id :: !Candidate(limits, tracks, taken, o, id)
    ensures Match(limits, tracks, taken, o) == None
  {
    assert forall id :: !Nearest(limits, tracks, taken, o, id);
  }
}
