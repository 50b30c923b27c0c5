/** Identity of tracks over any sequence of frames without supplied object ids. */
module TrackerProofs {
  import opened Options
  import opened Sensing
  import opened Tracker

  ghost predicate NoneSupplied(obstacles: seq<DetectedObstacle>) {
    forall o | o in obstacles :: o.trackId.None? || o.trackId.value == ""
  }

  // ---------- The match ----------

  lemma {:induction false} NearestAmong(limits: Limits, tracks: Tracks, taken: set<string>, o: DetectedObstacle,
                                        ids: set<string>, some: string) returns (best: string)
    requires some in ids && Candidate(limits, tracks, taken, o, some)
    ensures best in ids && Candidate(limits, tracks, taken, o, best)
    ensures forall id | id in ids && Candidate(limits, tracks, taken, o, id) && id != best ::
      Closer(tracks, o, best, id)
    decreases ids
  {
    best := some;
    if other :| other in ids && other != some && Candidate(limits, tracks, taken, o, other) {
      best := NearestAmong(limits, tracks, taken, o, ids - {some}, other);
      var rest := best;
      CloserIsStrictOrder(tracks, o, some, rest, rest);
      if Closer(tracks, o, some, rest) {
        best := some;
        forall id | id in ids && Candidate(limits, tracks, taken, o, id) && id != some
          ensures Closer(tracks, o, some, id)
        {
          CloserIsStrictOrder(tracks, o, some, rest, id);
        }
      }
    }
  }

  /** An obstacle is matched to the nearest candidate, and unmatched exactly if there is no candidate. */
  lemma MatchIsNearest(limits: Limits, tracks: Tracks, taken: set<string>, o: DetectedObstacle)
    ensures match Match(limits, tracks, taken, o)
      case Some(id) => Nearest(limits, tracks, taken, o, id)
      case None => forall id :: !Candidate(limits, tracks, taken, o, id)
  {
    if some :| Candidate(limits, tracks, taken, o, some) {
      var best := NearestAmong(limits, tracks, taken, o, tracks.Keys, some);
      assert Nearest(limits, tracks, taken, o, best);
    }
  }

  /** The table after some of a frame: the ids it took aside, it is still the table of before. */
  ghost predicate Untouched(start: Tracks, taken: set<string>, tracks: Tracks) {
    forall id | id !in taken :: (id in tracks <==> id in start) && (id in start ==> tracks[id] == start[id])
  }

  lemma SameMatch(limits: Limits, start: Tracks, taken: set<string>, tracks: Tracks, o: DetectedObstacle, id: string)
    requires Untouched(start, taken, tracks)
    ensures Candidate(limits, tracks, taken, o, id) <==> Candidate(limits, start, taken, o, id)
    ensures Nearest(limits, tracks, taken, o, id) <==> Nearest(limits, start, taken, o, id)
  {
    assert forall other :: Candidate(limits, tracks, taken, o, other) <==> Candidate(limits, start, taken, o, other);
  }

  function IdsOf(tracked: seq<DetectedObstacle>): set<string> {
    set o | o in tracked && o.trackId.Some? :: o.trackId.value
  }

  /** Obstacle `i` of a frame got the nearest of the tracks from before the frame, or none was in range. */
  ghost predicate MatchedFrom(limits: Limits, start: Tracks, taken: set<string>, obstacles: seq<DetectedObstacle>,
                              tracked: seq<DetectedObstacle>, i: nat)
    requires i < |obstacles| == |tracked|
  {
    var before, id := taken + IdsOf(tracked[..i]), tracked[i].trackId;
    && id.Some?
    && (Nearest(limits, start, before, obstacles[i], id.value) ||
        (id.value !in start && forall other :: !Candidate(limits, start, before, obstacles[i], other)))
  }

  // ---------- Ids ----------

  /** Every track is named after its source and a counter value already used. */
  ghost predicate WellNamed(s: TrackerState) {
    forall id | id in s.tracks :: exists c: nat :: c < s.counter && id == TrackId(s.tracks[id].source, c)
  }

  ghost predicate NamedBelow(counter: nat, o: DetectedObstacle) {
    o.trackId.Some? && exists c: nat :: c < counter && o.trackId.value == TrackId(o.source, c)
  }

  lemma FreshIdIsNew(s: TrackerState, source: string)
    requires WellNamed(s)
    ensures TrackId(source, s.counter) !in s.tracks
  {
    var newId := TrackId(source, s.counter);
    if newId in s.tracks {
      var c: nat :| c < s.counter && newId == TrackId(s.tracks[newId].source, c);
      TrackIdsSeparate(source, s.counter, s.tracks[newId].source, c);
    }
  }

  /** One association keeps names sound and hands out an id that was not taken in this frame. */
  lemma AssignIsSound(limits: Limits, s: TrackerState, taken: set<string>, o: DetectedObstacle, now: real)
    requires WellNamed(s) && taken <= s.tracks.Keys && !Supplied(o)
    ensures var (id, counter) := Assign(limits, s, taken, o);
      var next := Observed(s, o, id, counter, now);
      && id !in taken && s.counter <= counter && taken + {id} <= next.tracks.Keys
      && WellNamed(next) && NamedBelow(counter, Tracked(s.tracks, o, id, now))
      && (id in s.tracks ==> counter == s.counter && Nearest(limits, s.tracks, taken, o, id))
      && (id !in s.tracks ==>
            && counter == s.counter + 1 && id == TrackId(o.source, s.counter)
            && forall other :: !Candidate(limits, s.tracks, taken, o, other))
  {
    var (id, counter) := Assign(limits, s, taken, o);
    var next := Observed(s, o, id, counter, now);
    FreshIdIsNew(s, o.source);
    MatchIsNearest(limits, s.tracks, taken, o);
    if id in s.tracks {
      var c: nat :| c < s.counter && id == TrackId(s.tracks[id].source, c);
      assert id == TrackId(o.source, c);
    }
    forall other | other in next.tracks
      ensures exists c: nat :: c < next.counter && other == TrackId(next.tracks[other].source, c)
    {
      if other != id {
        var c: nat :| c < s.counter && other == TrackId(s.tracks[other].source, c);
        assert c < next.counter;
      } else if id !in s.tracks {
        assert s.counter < next.counter && other == TrackId(next.tracks[other].source, s.counter);
      } else {
        var c: nat :| c < s.counter && id == TrackId(s.tracks[id].source, c);
        assert c < next.counter && other == TrackId(next.tracks[other].source, c);
      }
    }
  }

  /** A generated id: the source and the counter value it was made from. */
  datatype Birth = Birth(source: string, counter: nat)

  function NameOf(b: Birth): string {
    TrackId(b.source, b.counter)
  }

  ghost function Births(limits: Limits, s: TrackerState, taken: set<string>, obstacles: seq<DetectedObstacle>,
                        now: real)
    : seq<Birth>
    decreases |obstacles|
  {
    if obstacles == [] then []
    else
      var (id, counter) := Assign(limits, s, taken, obstacles[0]);
      (if counter != s.counter then [Birth(obstacles[0].source, s.counter)] else [])
      + Births(limits, Observed(s, obstacles[0], id, counter, now), taken + {id}, obstacles[1..], now)
  }

  ghost predicate Consecutive(from: nat, births: seq<Birth>, to: nat) {
    to == from + |births| && forall i | 0 <= i < |births| :: births[i].counter == from + i
  }

  ghost predicate Distinct(taken: set<string>, tracked: seq<DetectedObstacle>) {
    && (forall o | o in tracked :: o.trackId.Some? && o.trackId.value !in taken)
    && (forall i, j | 0 <= i < j < |tracked| :: tracked[i].trackId != tracked[j].trackId)
  }

  lemma {:induction false} AssociationKeepsNames(limits: Limits, s: TrackerState, taken: set<string>,
                                                 obstacles: seq<DetectedObstacle>, now: real)
    requires WellNamed(s) && taken <= s.tracks.Keys && NoneSupplied(obstacles)
    ensures var (last, tracked) := Associate(limits, s, taken, obstacles, now);
      && WellNamed(last) && |tracked| == |obstacles|
      && Consecutive(s.counter, Births(limits, s, taken, obstacles, now), last.counter)
    decreases |obstacles|
  {
    if obstacles != [] {
      AssignIsSound(limits, s, taken, obstacles[0], now);
      var (id, counter) := Assign(limits, s, taken, obstacles[0]);
      AssociationKeepsNames(limits, Observed(s, obstacles[0], id, counter, now), taken + {id}, obstacles[1..], now);
    }
  }

  lemma {:induction false} AssociationNames(limits: Limits, s: TrackerState, taken: set<string>,
                                            obstacles: seq<DetectedObstacle>, now: real)
    requires WellNamed(s) && taken <= s.tracks.Keys && NoneSupplied(obstacles)
    ensures var (last, tracked) := Associate(limits, s, taken, obstacles, now);
      forall o | o in tracked :: NamedBelow(last.counter, o)
    decreases |obstacles|
  {
    if obstacles != [] {
      var o := obstacles[0];
      AssignIsSound(limits, s, taken, o, now);
      var (id, counter) := Assign(limits, s, taken, o);
      var next := Observed(s, o, id, counter, now);
      AssociationNames(limits, next, taken + {id}, obstacles[1..], now);
      AssociationKeepsNames(limits, next, taken + {id}, obstacles[1..], now);
      NamedLater(counter, Tracked(s.tracks, o, id, now), Associate(limits, s, taken, obstacles, now).0.counter);
    }
  }

  lemma NamedLater(counter: nat, o: DetectedObstacle, later: nat)
    requires NamedBelow(counter, o) && counter <= later
    ensures NamedBelow(later, o)
  {
    var c: nat :| c < counter && o.trackId.value == TrackId(o.source, c);
    assert c < later;
  }

  lemma {:induction false} AssociationIsDistinct(limits: Limits, s: TrackerState, taken: set<string>,
                                                 obstacles: seq<DetectedObstacle>, now: real)
    requires WellNamed(s) && taken <= s.tracks.Keys && NoneSupplied(obstacles)
    ensures Distinct(taken, Associate(limits, s, taken, obstacles, now).1)
    decreases |obstacles|
  {
    if obstacles != [] {
      AssignIsSound(limits, s, taken, obstacles[0], now);
      var (id, counter) := Assign(limits, s, taken, obstacles[0]);
      var next := Observed(s, obstacles[0], id, counter, now);
      AssociationIsDistinct(limits, next, taken + {id}, obstacles[1..], now);
      DistinctMore(taken, id, Tracked(s.tracks, obstacles[0], id, now),
                   Associate(limits, next, taken + {id}, obstacles[1..], now).1);
    }
  }

  lemma DistinctMore(taken: set<string>, id: string, first: DetectedObstacle, rest: seq<DetectedObstacle>)
    requires id !in taken && first.trackId == Some(id) && Distinct(taken + {id}, rest)
    ensures Distinct(taken, [first] + rest)
  {
    assert forall i | 0 <= i < |rest| :: rest[i] in rest;
  }

  lemma FirstIsMatched(limits: Limits, start: Tracks, s: TrackerState, taken: set<string>,
                       obstacles: seq<DetectedObstacle>, now: real)
    requires WellNamed(s) && taken <= s.tracks.Keys && NoneSupplied(obstacles) && Untouched(start, taken, s.tracks)
    requires obstacles != [] && |Associate(limits, s, taken, obstacles, now).1| == |obstacles|
    ensures MatchedFrom(limits, start, taken, obstacles, Associate(limits, s, taken, obstacles, now).1, 0)
  {
    var o := obstacles[0];
    AssignIsSound(limits, s, taken, o, now);
    var id := Assign(limits, s, taken, o).0;
    assert taken + IdsOf(Associate(limits, s, taken, obstacles, now).1[..0]) == taken;
    forall other
      ensures Candidate(limits, s.tracks, taken, o, other) <==> Candidate(limits, start, taken, o, other)
    {
      SameMatch(limits, start, taken, s.tracks, o, other);
    }
    SameMatch(limits, start, taken, s.tracks, o, id);
  }

  lemma MatchedFromMore(limits: Limits, start: Tracks, taken: set<string>, id: string,
                        obstacles: seq<DetectedObstacle>, first: DetectedObstacle, rest: seq<DetectedObstacle>, i: nat)
    requires first.trackId == Some(id) && 0 < i < |obstacles| == |rest| + 1
    requires MatchedFrom(limits, start, taken + {id}, obstacles[1..], rest, i - 1)
    ensures MatchedFrom(limits, start, taken, obstacles, [first] + rest, i)
  {
    assert ([first] + rest)[..i] == [first] + rest[..i - 1];
    assert taken + IdsOf(([first] + rest)[..i]) == taken + {id} + IdsOf(rest[..i - 1]);
  }

  lemma {:induction false} AssociationMatches(limits: Limits, start: Tracks, s: TrackerState, taken: set<string>,
                                              obstacles: seq<DetectedObstacle>, now: real, i: nat)
    requires WellNamed(s) && taken <= s.tracks.Keys && NoneSupplied(obstacles) && Untouched(start, taken, s.tracks)
    requires i < |obstacles|
    ensures |Associate(limits, s, taken, obstacles, now).1| == |obstacles|
    ensures MatchedFrom(limits, start, taken, obstacles, Associate(limits, s, taken, obstacles, now).1, i)
    decreases |obstacles|
  {
    AssociationKeepsNames(limits, s, taken, obstacles, now);
    if i == 0 {
      FirstIsMatched(limits, start, s, taken, obstacles, now);
    } else {
      var o := obstacles[0];
      AssignIsSound(limits, s, taken, o, now);
      var (id, counter) := Assign(limits, s, taken, o);
      var next := Observed(s, o, id, counter, now);
      AssociationMatches(limits, start, next, taken + {id}, obstacles[1..], now, i - 1);
      MatchedFromMore(limits, start, taken, id, obstacles, Tracked(s.tracks, o, id, now),
                      Associate(limits, next, taken + {id}, obstacles[1..], now).1, i);
    }
  }

  // ---------- Whole frames ----------

  /** Every live track was observed recently enough. */
  ghost predicate Recent(limits: Limits, tracks: Tracks, now: real) {
    forall id | id in tracks :: now - tracks[id].timestamp <= limits.age
  }

  lemma {:induction false} AssociationIsRecent(limits: Limits, s: TrackerState, taken: set<string>,
                                               obstacles: seq<DetectedObstacle>, now: real)
    requires limits.age >= 0.0 && Recent(limits, s.tracks, now)
    ensures Recent(limits, Associate(limits, s, taken, obstacles, now).0.tracks, now)
    decreases |obstacles|
  {
    if obstacles != [] {
      var (id, counter) := Assign(limits, s, taken, obstacles[0]);
      AssociationIsRecent(limits, Observed(s, obstacles[0], id, counter, now), taken + {id}, obstacles[1..], now);
    }
  }

  /**
   * One update without supplied ids: the ids of the frame are pairwise distinct; each obstacle gets the
   * nearest of the tracks left over from earlier frames, or a fresh id if none is in range; and
   * afterwards every live track is within the age limit.
   */
  lemma UpdateIsSound(limits: Limits, s: TrackerState, obstacles: seq<DetectedObstacle>, now: real)
    requires limits.age >= 0.0 && WellNamed(s) && NoneSupplied(obstacles)
    ensures var (last, tracked) := Updated(limits, s, obstacles, now);
      && |tracked| == |obstacles|
      && (forall i, j | 0 <= i < j < |tracked| :: tracked[i].trackId != tracked[j].trackId)
      && (forall i | 0 <= i < |tracked| ::
            MatchedFrom(limits, Pruned(limits, s.tracks, now), {}, obstacles, tracked, i))
      && Recent(limits, last.tracks, now)
      && WellNamed(last)
  {
    var pruned := s.(tracks := Pruned(limits, s.tracks, now));
    assert WellNamed(pruned);
    AssociationKeepsNames(limits, pruned, {}, obstacles, now);
    AssociationIsDistinct(limits, pruned, {}, obstacles, now);
    AssociationIsRecent(limits, pruned, {}, obstacles, now);
    var tracked := Updated(limits, s, obstacles, now).1;
    forall i | 0 <= i < |tracked|
      ensures MatchedFrom(limits, pruned.tracks, {}, obstacles, tracked, i)
    {
      AssociationMatches(limits, pruned.tracks, pruned, {}, obstacles, now, i);
    }
  }

  /** A reported velocity carries the track from its previous position to the observed one. */
  lemma VelocityConnectsObservations(previous: Option<Track>, o: DetectedObstacle, now: real)
    ensures var (vx, vy) := Velocity(previous, o, now);
      if previous.Some? && previous.value.timestamp < now then
        var p := previous.value;
        && vx.Some? && vy.Some?
        && p.x + vx.value * (now - p.timestamp) == o.x && p.y + vy.value * (now - p.timestamp) == o.y
      else vx.None? && vy.None?
  {
  }

  // ---------- Sequences of frames ----------

  datatype Sighting = Sighting(obstacles: seq<DetectedObstacle>, now: real)

  const NEW_TRACKER := TrackerState(map[], 1)

  ghost function UpdateAll(limits: Limits, s: TrackerState, frames: seq<Sighting>)
    : (TrackerState, seq<DetectedObstacle>)
    decreases |frames|
  {
    if frames == [] then (s, [])
    else
      var (next, tracked) := Updated(limits, s, frames[0].obstacles, frames[0].now);
      var (last, rest) := UpdateAll(limits, next, frames[1..]);
      (last, tracked + rest)
  }

  ghost function AllBirths(limits: Limits, s: TrackerState, frames: seq<Sighting>): seq<Birth>
    decreases |frames|
  {
    if frames == [] then []
    else
      var f := frames[0];
      Births(limits, s.(tracks := Pruned(limits, s.tracks, f.now)), {}, f.obstacles, f.now)
      + AllBirths(limits, Updated(limits, s, f.obstacles, f.now).0, frames[1..])
  }

  ghost predicate Unsupplied(frames: seq<Sighting>) {
    forall f | f in frames :: NoneSupplied(f.obstacles)
  }

  lemma {:induction false} FramesAreSound(limits: Limits, s: TrackerState, frames: seq<Sighting>)
    requires WellNamed(s) && Unsupplied(frames)
    ensures var (last, tracked) := UpdateAll(limits, s, frames);
      && WellNamed(last)
      && Consecutive(s.counter, AllBirths(limits, s, frames), last.counter)
      && (forall o | o in tracked :: NamedBelow(last.counter, o))
    decreases |frames|
  {
    if frames != [] {
      var f := frames[0];
      var pruned := s.(tracks := Pruned(limits, s.tracks, f.now));
      assert WellNamed(pruned);
      AssociationKeepsNames(limits, pruned, {}, f.obstacles, f.now);
      AssociationNames(limits, pruned, {}, f.obstacles, f.now);
      var (next, tracked) := Updated(limits, s, f.obstacles, f.now);
      FramesAreSound(limits, next, frames[1..]);
      var (last, rest) := UpdateAll(limits, next, frames[1..]);
      forall o | o in tracked
        ensures NamedBelow(last.counter, o)
      {
        NamedLater(next.counter, o, last.counter);
      }
    }
  }

  /** Over any sequence of frames, no generated id is ever generated again, even after its track has expired. */
  lemma IdsAreNeverReused(limits: Limits, frames: seq<Sighting>, i: nat, j: nat)
    requires Unsupplied(frames)
    requires i < j < |AllBirths(limits, NEW_TRACKER, frames)|
    ensures var births := AllBirths(limits, NEW_TRACKER, frames); NameOf(births[i]) != NameOf(births[j])
  {
    FramesAreSound(limits, NEW_TRACKER, frames);
    var births := AllBirths(limits, NEW_TRACKER, frames);
    if NameOf(births[i]) == NameOf(births[j]) {
      TrackIdsSeparate(births[i].source, births[i].counter, births[j].source, births[j].counter);
    }
  }

  /** All observations ever reported under one track id come from one source. */
  lemma TracksHaveOneSource(limits: Limits, frames: seq<Sighting>, a: DetectedObstacle, b: DetectedObstacle)
    requires Unsupplied(frames)
    requires var tracked := UpdateAll(limits, NEW_TRACKER, frames).1; a in tracked && b in tracked
    requires a.trackId == b.trackId
    ensures a.trackId.Some? && a.source == b.source
  {
    FramesAreSound(limits, NEW_TRACKER, frames);
    var counter := UpdateAll(limits, NEW_TRACKER, frames).0.counter;
    assert NamedBelow(counter, a) && NamedBelow(counter, b);
    var c: nat :| c < counter && a.trackId.value == TrackId(a.source, c);
    var d: nat :| d < counter && b.trackId.value == TrackId(b.source, d);
    TrackIdsSeparate(a.source, c, b.source, d);
  }

  /** Every frame of any sequence finds well-named tracks, so all that holds of one update holds of each. */
  lemma EveryFrameIsSound(limits: Limits, frames: seq<Sighting>, k: nat)
    requires limits.age >= 0.0 && Unsupplied(frames) && k < |frames|
    ensures var s := UpdateAll(limits, NEW_TRACKER, frames[..k]).0;
      var (last, tracked) := Updated(limits, s, frames[k].obstacles, frames[k].now);
      && |tracked| == |frames[k].obstacles|
      && (forall i, j | 0 <= i < j < |tracked| :: tracked[i].trackId != tracked[j].trackId)
      && (forall i | 0 <= i < |tracked| ::
            MatchedFrom(limits, Pruned(limits, s.tracks, frames[k].now), {}, frames[k].obstacles, tracked, i))
      && Recent(limits, last.tracks, frames[k].now)
  {
    FramesAreSound(limits, NEW_TRACKER, frames[..k]);
    UpdateIsSound(limits, UpdateAll(limits, NEW_TRACKER, frames[..k]).0, frames[k].obstacles, frames[k].now);
  }
}
