/** The track table against the plain history of everything that was ever reported. */
module TrackerHistory {
  import opened Options
  import opened Sensing
  import opened Tracker
  import opened TrackerProofs

  /** An obstacle as it was perceived, the report that was made of it, and when. */
  datatype Sight = Sight(seen: DetectedObstacle, reported: DetectedObstacle, now: real)

  function SightsOf(obstacles: seq<DetectedObstacle>, tracked: seq<DetectedObstacle>, now: real): seq<Sight>
    requires |obstacles| == |tracked|
  {
    if obstacles == [] then []
    else [Sight(obstacles[0], tracked[0], now)] + SightsOf(obstacles[1..], tracked[1..], now)
  }

  /** The last sight of a track. */
  function LastSight(log: seq<Sight>, id: string): Option<Sight> {
    if log == [] then None
    else if log[|log| - 1].reported.trackId == Some(id) then Some(log[|log| - 1])
    else LastSight(log[..|log| - 1], id)
  }

  function CountSights(log: seq<Sight>, id: string): nat {
    if log == [] then 0
    else CountSights(log[..|log| - 1], id) + if log[|log| - 1].reported.trackId == Some(id) then 1 else 0
  }

  lemma SightMore(log: seq<Sight>, x: Sight, id: string)
    ensures LastSight(log + [x], id) == if x.reported.trackId == Some(id) then Some(x) else LastSight(log, id)
    ensures CountSights(log + [x], id) == CountSights(log, id) + if x.reported.trackId == Some(id) then 1 else 0
  {
    assert (log + [x])[..|log|] == log;
  }

  // ---------- The table ----------

  /** The track is exactly what was last seen. */
  predicate IsOf(t: Track, x: Sight) {
    && t.x == x.seen.x && t.y == x.seen.y && t.source == x.seen.source
    && t.timestamp == x.now && t.ageFrames == x.reported.ageFrames
  }

  /** The table holds the tracks that were last seen recently enough, each as it was last seen, and no other. */
  ghost predicate Remembers(limits: Limits, tracks: Tracks, log: seq<Sight>, now: real) {
    forall id ::
      var last := LastSight(log, id);
      && (id in tracks <==> last.Some? && now - last.value.now <= limits.age)
      && (id in tracks ==> IsOf(tracks[id], last.value))
  }

  /**
   * The report of a sight, given the history before it: the obstacle with its id; on the age and velocity, if
   * its track is live, those that continue the last sight, and otherwise an age of one and no velocity.
   */
  ghost predicate Continues(limits: Limits, log: seq<Sight>, x: Sight) {
    var r := x.reported;
    && r == x.seen.(trackId := r.trackId, vx := r.vx, vy := r.vy, ageFrames := r.ageFrames)
    && r.trackId.Some?
    && var last := LastSight(log, r.trackId.value);
       if last.Some? && x.now - last.value.now <= limits.age then
         var p, dt := last.value, x.now - last.value.now;
         && r.ageFrames == p.reported.ageFrames + 1
         && if dt > 0.0 then
              && r.vx.Some? && r.vy.Some?
              && p.seen.x + r.vx.value * dt == x.seen.x && p.seen.y + r.vy.value * dt == x.seen.y
            else r.vx.None? && r.vy.None?
       else r.ageFrames == 1 && r.vx.None? && r.vy.None?
  }

  lemma ReportContinues(limits: Limits, tracks: Tracks, log: seq<Sight>, o: DetectedObstacle, id: string, now: real)
    requires Remembers(limits, tracks, log, now)
    ensures Continues(limits, log, Sight(o, Tracked(tracks, o, id, now), now))
  {
    var last := LastSight(log, id);
    assert id in tracks <==> last.Some? && now - last.value.now <= limits.age;
    VelocityConnectsObservations(Find(tracks, id), o, now);
  }

  lemma ObservationIsRemembered(limits: Limits, s: TrackerState, log: seq<Sight>, o: DetectedObstacle, id: string,
                                counter: nat, now: real)
    requires limits.age >= 0.0 && Remembers(limits, s.tracks, log, now)
    ensures Remembers(limits, Observed(s, o, id, counter, now).tracks,
                      log + [Sight(o, Tracked(s.tracks, o, id, now), now)], now)
  {
    var x, next := Sight(o, Tracked(s.tracks, o, id, now), now), Observed(s, o, id, counter, now);
    forall other
      ensures var last := LastSight(log + [x], other);
        && (other in next.tracks <==> last.Some? && now - last.value.now <= limits.age)
        && (other in next.tracks ==> IsOf(next.tracks[other], last.value))
    {
      SightMore(log, x, other);
      assert other in s.tracks <==> LastSight(log, other).Some? && now - LastSight(log, other).value.now <= limits.age;
    }
  }

  ghost predicate AllContinue(limits: Limits, log: seq<Sight>, more: seq<Sight>) {
    forall k | 0 <= k < |more| :: Continues(limits, log + more[..k], more[k])
  }

  lemma AllContinueConcat(limits: Limits, log: seq<Sight>, a: seq<Sight>, b: seq<Sight>)
    requires AllContinue(limits, log, a) && AllContinue(limits, log + a, b)
    ensures AllContinue(limits, log, a + b)
  {
    forall k | 0 <= k < |a + b|
      ensures Continues(limits, log + (a + b)[..k], (a + b)[k])
    {
      if k < |a| {
        assert (a + b)[..k] == a[..k];
      } else {
        assert log + (a + b)[..k] == log + a + b[..k - |a|];
      }
    }
  }

  lemma OneContinues(limits: Limits, log: seq<Sight>, x: Sight)
    requires Continues(limits, log, x)
    ensures AllContinue(limits, log, [x])
  {
    assert log + [x][..0] == log;
  }

  lemma {:induction false} AssociationLength(limits: Limits, s: TrackerState, taken: set<string>,
                                             obstacles: seq<DetectedObstacle>, now: real)
    ensures |Associate(limits, s, taken, obstacles, now).1| == |obstacles|
    decreases |obstacles|
  {
    if obstacles != [] {
      var (id, counter) := Assign(limits, s, taken, obstacles[0]);
      AssociationLength(limits, Observed(s, obstacles[0], id, counter, now), taken + {id}, obstacles[1..], now);
    }
  }

  /** The sights of a frame. */
  ghost function FrameSights(limits: Limits, s: TrackerState, taken: set<string>, obstacles: seq<DetectedObstacle>,
                             now: real): seq<Sight>
  {
    AssociationLength(limits, s, taken, obstacles, now);
    SightsOf(obstacles, Associate(limits, s, taken, obstacles, now).1, now)
  }

  lemma FrameSightsMore(limits: Limits, s: TrackerState, taken: set<string>, obstacles: seq<DetectedObstacle>,
                        now: real)
    requires obstacles != []
    ensures var (id, counter) := Assign(limits, s, taken, obstacles[0]);
      var next := Observed(s, obstacles[0], id, counter, now);
      && FrameSights(limits, s, taken, obstacles, now) ==
           [Sight(obstacles[0], Tracked(s.tracks, obstacles[0], id, now), now)]
           + FrameSights(limits, next, taken + {id}, obstacles[1..], now)
      && Associate(limits, s, taken, obstacles, now).0 ==
           Associate(limits, next, taken + {id}, obstacles[1..], now).0
  {
    var (id, counter) := Assign(limits, s, taken, obstacles[0]);
    var next := Observed(s, obstacles[0], id, counter, now);
    var rest := Associate(limits, next, taken + {id}, obstacles[1..], now).1;
    assert ([Tracked(s.tracks, obstacles[0], id, now)] + rest)[1..] == rest;
  }

  lemma {:induction false} FrameIsRemembered(limits: Limits, s: TrackerState, taken: set<string>,
                                             obstacles: seq<DetectedObstacle>, now: real, log: seq<Sight>)
    requires limits.age >= 0.0 && Remembers(limits, s.tracks, log, now)
    ensures var more := FrameSights(limits, s, taken, obstacles, now);
      && Remembers(limits, Associate(limits, s, taken, obstacles, now).0.tracks, log + more, now)
      && AllContinue(limits, log, more)
    decreases |obstacles|
  {
    if obstacles == [] {
      assert log + [] == log;
    } else {
      var (id, counter) := Assign(limits, s, taken, obstacles[0]);
      var next, x := Observed(s, obstacles[0], id, counter, now),
                     Sight(obstacles[0], Tracked(s.tracks, obstacles[0], id, now), now);
      ReportContinues(limits, s.tracks, log, obstacles[0], id, now);
      ObservationIsRemembered(limits, s, log, obstacles[0], id, counter, now);
      OneContinues(limits, log, x);
      FrameSightsMore(limits, s, taken, obstacles, now);
      var rest := FrameSights(limits, next, taken + {id}, obstacles[1..], now);
      FrameIsRemembered(limits, next, taken + {id}, obstacles[1..], now, log + [x]);
      AllContinueConcat(limits, log, [x], rest);
      assert log + [x] + rest == log + ([x] + rest);
    }
  }

  lemma PruningIsRemembered(limits: Limits, tracks: Tracks, log: seq<Sight>, before: real, now: real)
    requires Remembers(limits, tracks, log, before) && before <= now
    ensures Remembers(limits, Pruned(limits, tracks, now), log, now)
  {
    forall id
      ensures var last := LastSight(log, id);
        && (id in Pruned(limits, tracks, now) <==> last.Some? && now - last.value.now <= limits.age)
        && (id in Pruned(limits, tracks, now) ==> IsOf(Pruned(limits, tracks, now)[id], last.value))
    {
      assert id in tracks <==> LastSight(log, id).Some? && before - LastSight(log, id).value.now <= limits.age;
    }
  }

  // ---------- Sequences of frames ----------

  function PrunedState(limits: Limits, s: TrackerState, now: real): TrackerState {
    s.(tracks := Pruned(limits, s.tracks, now))
  }

  /** Everything that a tracker reports over a sequence of frames. */
  ghost function History(limits: Limits, s: TrackerState, frames: seq<Sighting>): seq<Sight>
    decreases |frames|
  {
    if frames == [] then []
    else
      var f := frames[0];
      FrameSights(limits, PrunedState(limits, s, f.now), {}, f.obstacles, f.now)
      + History(limits, Updated(limits, s, f.obstacles, f.now).0, frames[1..])
  }

  ghost predicate InTimeOrder(from: real, frames: seq<Sighting>) {
    && (forall i | 0 <= i < |frames| :: from <= frames[i].now)
    && (forall i, j | 0 <= i < j < |frames| :: frames[i].now <= frames[j].now)
  }

  function TimeAfter(from: real, frames: seq<Sighting>): real {
    if frames == [] then from else frames[|frames| - 1].now
  }

  lemma {:induction false} FramesAreRemembered(limits: Limits, s: TrackerState, frames: seq<Sighting>, from: real,
                                               log: seq<Sight>)
    requires limits.age >= 0.0 && InTimeOrder(from, frames) && Remembers(limits, s.tracks, log, from)
    ensures var more := History(limits, s, frames);
      && Remembers(limits, UpdateAll(limits, s, frames).0.tracks, log + more, TimeAfter(from, frames))
      && AllContinue(limits, log, more)
    decreases |frames|
  {
    if frames == [] {
      assert log + [] == log;
    } else {
      var f := frames[0];
      var now := FrameSights(limits, PrunedState(limits, s, f.now), {}, f.obstacles, f.now);
      var next := Updated(limits, s, f.obstacles, f.now).0;
      var rest := History(limits, next, frames[1..]);
      OneFrameIsRemembered(limits, s, f, from, log);
      LaterFrames(from, frames);
      FramesAreRemembered(limits, next, frames[1..], f.now, log + now);
      AllContinueConcat(limits, log, now, rest);
      assert log + now + rest == log + (now + rest);
    }
  }

  lemma OneFrameIsRemembered(limits: Limits, s: TrackerState, f: Sighting, from: real, log: seq<Sight>)
    requires limits.age >= 0.0 && from <= f.now && Remembers(limits, s.tracks, log, from)
    ensures var more := FrameSights(limits, PrunedState(limits, s, f.now), {}, f.obstacles, f.now);
      && Remembers(limits, Updated(limits, s, f.obstacles, f.now).0.tracks, log + more, f.now)
      && AllContinue(limits, log, more)
  {
    PruningIsRemembered(limits, s.tracks, log, from, f.now);
    FrameIsRemembered(limits, PrunedState(limits, s, f.now), {}, f.obstacles, f.now, log);
  }

  lemma LaterFrames(from: real, frames: seq<Sighting>)
    requires InTimeOrder(from, frames) && frames != []
    ensures from <= frames[0].now && InTimeOrder(frames[0].now, frames[1..])
    ensures TimeAfter(frames[0].now, frames[1..]) == TimeAfter(from, frames)
  {
  }

  /**
   * Over any sequence of frames on a clock that does not run backwards, supplied ids or not: the table holds
   * exactly the tracks last seen within the age limit, each with the position, time, source and age of its
   * last sight; and every report carries on from the last sight of its track.
   */
  lemma TableIsLastSights(limits: Limits, frames: seq<Sighting>, from: real)
    requires limits.age >= 0.0 && InTimeOrder(from, frames)
    ensures var log := History(limits, NEW_TRACKER, frames);
      && Remembers(limits, UpdateAll(limits, NEW_TRACKER, frames).0.tracks, log, TimeAfter(from, frames))
      && AllContinue(limits, [], log)
  {
    FramesAreRemembered(limits, NEW_TRACKER, frames, from, []);
    assert [] + History(limits, NEW_TRACKER, frames) == History(limits, NEW_TRACKER, frames);
  }

  /** An id that comes with an obstacle is reported as it is, whatever the table holds. */
  lemma {:induction false} SuppliedIdIsKept(limits: Limits, s: TrackerState, taken: set<string>,
                                            obstacles: seq<DetectedObstacle>, now: real, i: nat)
    requires i < |obstacles| && obstacles[i].trackId.Some? && obstacles[i].trackId.value != ""
    ensures var tracked := Associate(limits, s, taken, obstacles, now).1;
      i < |tracked| && tracked[i].trackId == obstacles[i].trackId
    decreases |obstacles|
  {
    if i > 0 {
      var (id, counter) := Assign(limits, s, taken, obstacles[0]);
      SuppliedIdIsKept(limits, Observed(s, obstacles[0], id, counter, now), taken + {id}, obstacles[1..], now, i - 1);
    }
  }

  // ---------- Keeping an identity ----------

  /** The obstacle is close enough to a sight, and of the same source, to be the same thing. */
  ghost predicate InReach(limits: Limits, o: DetectedObstacle, p: DetectedObstacle) {
    && o.source == p.source
    && (o.x - p.x) * (o.x - p.x) + (o.y - p.y) * (o.y - p.y) <= limits.distance * limits.distance
  }

  /** The track was seen recently enough, and in reach of the obstacle. */
  ghost predicate MayContinue(limits: Limits, log: seq<Sight>, now: real, o: DetectedObstacle, id: string) {
    var last := LastSight(log, id);
    last.Some? && now - last.value.now <= limits.age && InReach(limits, o, last.value.seen)
  }

  lemma CandidateIff(limits: Limits, tracks: Tracks, log: seq<Sight>, now: real, taken: set<string>,
                     o: DetectedObstacle, id: string)
    requires Remembers(limits, tracks, log, now)
    ensures Candidate(limits, tracks, taken, o, id) <==> id !in taken && MayContinue(limits, log, now, o, id)
  {
    assert id in tracks <==> LastSight(log, id).Some? && now - LastSight(log, id).value.now <= limits.age;
    if id in tracks {
      var t, p := tracks[id], LastSight(log, id).value.seen;
      assert Square(o.x - t.x) == (o.x - p.x) * (o.x - p.x);
      assert Square(o.y - t.y) == (o.y - p.y) * (o.y - p.y);
      assert Square(limits.distance) == limits.distance * limits.distance;
    }
  }

  /** The ids that the earlier obstacles of a frame got. */
  ghost function IdsBefore(limits: Limits, s: TrackerState, f: Sighting, i: nat): set<string> {
    var tracked := Updated(limits, s, f.obstacles, f.now).1;
    if i <= |tracked| then IdsOf(tracked[..i]) else {}
  }

  /**
   * An obstacle keeps its id. After any frames, if it reappears within both limits of the last sight of a
   * track, if no earlier obstacle of the frame has taken that track, and if no other track is as much in
   * reach, it is reported under that track's id.
   */
  lemma IdentityIsKept(limits: Limits, frames: seq<Sighting>, from: real, f: Sighting, i: nat, id: string)
    requires limits.age >= 0.0 && Unsupplied(frames + [f]) && InTimeOrder(from, frames + [f])
    requires i < |f.obstacles|
    requires var log := History(limits, NEW_TRACKER, frames);
      && MayContinue(limits, log, f.now, f.obstacles[i], id)
      && forall other | other != id :: !MayContinue(limits, log, f.now, f.obstacles[i], other)
    requires id !in IdsBefore(limits, UpdateAll(limits, NEW_TRACKER, frames).0, f, i)
    ensures var tracked := Updated(limits, UpdateAll(limits, NEW_TRACKER, frames).0, f.obstacles, f.now).1;
      i < |tracked| && tracked[i].trackId == Some(id)
  {
    var s, log := UpdateAll(limits, NEW_TRACKER, frames).0, History(limits, NEW_TRACKER, frames);
    var all := frames + [f];
    assert all[..|frames|] == frames && all[|frames|] == f;
    assert InTimeOrder(from, frames) by {
      assert forall k | 0 <= k < |frames| :: all[k] == frames[k];
    }
    TableIsLastSights(limits, frames, from);
    PruningIsRemembered(limits, s.tracks, log, TimeAfter(from, frames), f.now);
    EveryFrameIsSound(limits, all, |frames|);
    OnlyCandidateIsMatched(limits, Pruned(limits, s.tracks, f.now), log, f, Updated(limits, s, f.obstacles, f.now).1,
                           i, id);
  }

  lemma OnlyCandidateIsMatched(limits: Limits, start: Tracks, log: seq<Sight>, f: Sighting,
                               tracked: seq<DetectedObstacle>, i: nat, id: string)
    requires Remembers(limits, start, log, f.now) && i < |f.obstacles| == |tracked|
    requires MatchedFrom(limits, start, {}, f.obstacles, tracked, i)
    requires MayContinue(limits, log, f.now, f.obstacles[i], id) && id !in IdsOf(tracked[..i])
    requires forall other | other != id :: !MayContinue(limits, log, f.now, f.obstacles[i], other)
    ensures tracked[i].trackId == Some(id)
  {
    var o, taken := f.obstacles[i], {} + IdsOf(tracked[..i]);
    CandidateIff(limits, start, log, f.now, taken, o, id);
    CandidateIff(limits, start, log, f.now, taken, o, tracked[i].trackId.value);
  }

  // ---------- Ages ----------

  /** Every sight is named after its source and a counter value already used. */
  ghost predicate SightsNamed(log: seq<Sight>, counter: nat) {
    forall x | x in log :: x.reported.source == x.seen.source && NamedBelow(counter, x.reported)
  }

  /** A track has been seen, and is as old as it has sights. */
  ghost predicate AgesCount(tracks: Tracks, log: seq<Sight>) {
    forall id | id in tracks :: tracks[id].ageFrames == CountSights(log, id) > 0
  }

  ghost predicate Counted(s: TrackerState, log: seq<Sight>) {
    SightsNamed(log, s.counter) && AgesCount(s.tracks, log)
  }

  lemma {:induction false} NeverSeen(log: seq<Sight>, counter: nat, source: string)
    requires SightsNamed(log, counter)
    ensures CountSights(log, TrackId(source, counter)) == 0
  {
    if log != [] {
      var x := log[|log| - 1];
      assert x in log;
      NeverSeen(log[..|log| - 1], counter, source);
      var c: nat :| c < counter && x.reported.trackId.value == TrackId(x.reported.source, c);
      if x.reported.trackId == Some(TrackId(source, counter)) {
        TrackIdsSeparate(source, counter, x.reported.source, c);
      }
    }
  }

  lemma SightsNamedMore(log: seq<Sight>, counter: nat, x: Sight, later: nat)
    requires SightsNamed(log, counter) && counter <= later
    requires x.reported.source == x.seen.source && NamedBelow(later, x.reported)
    ensures SightsNamed(log + [x], later)
  {
    forall y | y in log + [x]
      ensures y.reported.source == y.seen.source && NamedBelow(later, y.reported)
    {
      if y in log {
        NamedLater(counter, y.reported, later);
      }
    }
  }

  lemma ObservationCounts(limits: Limits, s: TrackerState, taken: set<string>, o: DetectedObstacle, now: real,
                          log: seq<Sight>)
    requires WellNamed(s) && taken <= s.tracks.Keys && !Supplied(o)
    requires Counted(s, log)
    ensures var (id, counter) := Assign(limits, s, taken, o);
      var next := Observed(s, o, id, counter, now);
      && WellNamed(next) && taken + {id} <= next.tracks.Keys
      && Counted(next, log + [Sight(o, Tracked(s.tracks, o, id, now), now)])
  {
    AssignIsSound(limits, s, taken, o, now);
    var (id, counter) := Assign(limits, s, taken, o);
    var next, x := Observed(s, o, id, counter, now), Sight(o, Tracked(s.tracks, o, id, now), now);
    SightsNamedMore(log, s.counter, x, counter);
    if id !in s.tracks {
      NeverSeen(log, s.counter, o.source);
    }
    forall other | other in next.tracks
      ensures next.tracks[other].ageFrames == CountSights(log + [x], other) > 0
    {
      SightMore(log, x, other);
    }
  }

  lemma {:induction false} FrameCounts(limits: Limits, s: TrackerState, taken: set<string>,
                                       obstacles: seq<DetectedObstacle>, now: real, log: seq<Sight>)
    requires WellNamed(s) && taken <= s.tracks.Keys && NoneSupplied(obstacles)
    requires Counted(s, log)
    ensures Counted(Associate(limits, s, taken, obstacles, now).0, log + FrameSights(limits, s, taken, obstacles, now))
    decreases |obstacles|
  {
    if obstacles == [] {
      assert log + [] == log;
    } else {
      ObservationCounts(limits, s, taken, obstacles[0], now, log);
      FrameSightsMore(limits, s, taken, obstacles, now);
      var (id, counter) := Assign(limits, s, taken, obstacles[0]);
      var next := Observed(s, obstacles[0], id, counter, now);
      var x := Sight(obstacles[0], Tracked(s.tracks, obstacles[0], id, now), now);
      assert NoneSupplied(obstacles[1..]);
      FrameCounts(limits, next, taken + {id}, obstacles[1..], now, log + [x]);
      Regroup(log, x, FrameSights(limits, next, taken + {id}, obstacles[1..], now));
    }
  }

  lemma Regroup(log: seq<Sight>, x: Sight, rest: seq<Sight>)
    ensures log + [x] + rest == log + ([x] + rest)
  {
  }

  lemma {:induction false} FramesCount(limits: Limits, s: TrackerState, frames: seq<Sighting>, log: seq<Sight>)
    requires WellNamed(s) && Unsupplied(frames) && Counted(s, log)
    ensures Counted(UpdateAll(limits, s, frames).0, log + History(limits, s, frames))
    decreases |frames|
  {
    if frames == [] {
      assert log + [] == log;
    } else {
      var f := frames[0];
      OneFrameCounts(limits, s, f, log);
      var now := FrameSights(limits, PrunedState(limits, s, f.now), {}, f.obstacles, f.now);
      var next := Updated(limits, s, f.obstacles, f.now).0;
      FramesCount(limits, next, frames[1..], log + now);
      assert log + now + History(limits, next, frames[1..]) == log + (now + History(limits, next, frames[1..]));
    }
  }

  lemma PruningCounts(limits: Limits, s: TrackerState, now: real, log: seq<Sight>)
    requires WellNamed(s) && Counted(s, log)
    ensures WellNamed(PrunedState(limits, s, now)) && Counted(PrunedState(limits, s, now), log)
  {
  }

  lemma OneFrameCounts(limits: Limits, s: TrackerState, f: Sighting, log: seq<Sight>)
    requires WellNamed(s) && NoneSupplied(f.obstacles) && Counted(s, log)
    ensures var next := Updated(limits, s, f.obstacles, f.now).0;
      var more := FrameSights(limits, PrunedState(limits, s, f.now), {}, f.obstacles, f.now);
      WellNamed(next) && Counted(next, log + more)
  {
    PruningCounts(limits, s, f.now, log);
    FrameCounts(limits, PrunedState(limits, s, f.now), {}, f.obstacles, f.now, log);
    AssociationKeepsNames(limits, PrunedState(limits, s, f.now), {}, f.obstacles, f.now);
  }

  /** Without supplied ids, the age of a live track is the number of all its sights ever. */
  lemma AgeIsNumberOfSights(limits: Limits, frames: seq<Sighting>, id: string)
    requires Unsupplied(frames) && id in UpdateAll(limits, NEW_TRACKER, frames).0.tracks
    ensures UpdateAll(limits, NEW_TRACKER, frames).0.tracks[id].ageFrames ==
      CountSights(History(limits, NEW_TRACKER, frames), id)
  {
    FramesCount(limits, NEW_TRACKER, frames, []);
    assert [] + History(limits, NEW_TRACKER, frames) == History(limits, NEW_TRACKER, frames);
  }

  // ---------- First sights ----------

  /** The ids in the order in which they were first reported. */
  function FirstIds(log: seq<Sight>): seq<string> {
    if log == [] then []
    else
      var before, id := log[..|log| - 1], log[|log| - 1].reported.trackId;
      FirstIds(before) + if id.Some? && CountSights(before, id.value) == 0 then [id.value] else []
  }

  function Names(births: seq<Birth>): seq<string> {
    seq(|births|, i requires 0 <= i < |births| => NameOf(births[i]))
  }

  lemma ObservationNamesFirst(limits: Limits, s: TrackerState, taken: set<string>, o: DetectedObstacle, now: real,
                              log: seq<Sight>)
    requires WellNamed(s) && taken <= s.tracks.Keys && !Supplied(o) && Counted(s, log)
    ensures var (id, counter) := Assign(limits, s, taken, o);
      var births := if counter != s.counter then [Birth(o.source, s.counter)] else [];
      FirstIds(log + [Sight(o, Tracked(s.tracks, o, id, now), now)]) == FirstIds(log) + Names(births)
  {
    AssignIsSound(limits, s, taken, o, now);
    var (id, counter) := Assign(limits, s, taken, o);
    var x := Sight(o, Tracked(s.tracks, o, id, now), now);
    assert (log + [x])[..|log|] == log;
    if id !in s.tracks {
      NeverSeen(log, s.counter, o.source);
    }
  }

  lemma {:induction false} FrameNamesFirst(limits: Limits, s: TrackerState, taken: set<string>,
                                           obstacles: seq<DetectedObstacle>, now: real, log: seq<Sight>)
    requires WellNamed(s) && taken <= s.tracks.Keys && NoneSupplied(obstacles) && Counted(s, log)
    ensures FirstIds(log + FrameSights(limits, s, taken, obstacles, now)) ==
      FirstIds(log) + Names(Births(limits, s, taken, obstacles, now))
    decreases |obstacles|
  {
    if obstacles == [] {
      assert log + [] == log && FirstIds(log) + [] == FirstIds(log);
    } else {
      ObservationCounts(limits, s, taken, obstacles[0], now, log);
      ObservationNamesFirst(limits, s, taken, obstacles[0], now, log);
      FrameSightsMore(limits, s, taken, obstacles, now);
      var (id, counter) := Assign(limits, s, taken, obstacles[0]);
      var next := Observed(s, obstacles[0], id, counter, now);
      var x := Sight(obstacles[0], Tracked(s.tracks, obstacles[0], id, now), now);
      var births := if counter != s.counter then [Birth(obstacles[0].source, s.counter)] else [];
      FrameNamesFirst(limits, next, taken + {id}, obstacles[1..], now, log + [x]);
      Regroup(log, x, FrameSights(limits, next, taken + {id}, obstacles[1..], now));
      NamesConcat(births, Births(limits, next, taken + {id}, obstacles[1..], now), FirstIds(log));
    }
  }

  lemma NamesConcat(a: seq<Birth>, b: seq<Birth>, before: seq<string>)
    ensures before + Names(a) + Names(b) == before + Names(a + b)
  {
  }

  lemma {:induction false} FramesNameFirst(limits: Limits, s: TrackerState, frames: seq<Sighting>, log: seq<Sight>)
    requires WellNamed(s) && Unsupplied(frames) && Counted(s, log)
    ensures FirstIds(log + History(limits, s, frames)) == FirstIds(log) + Names(AllBirths(limits, s, frames))
    decreases |frames|
  {
    if frames == [] {
      assert log + [] == log && FirstIds(log) + [] == FirstIds(log);
    } else {
      var f := frames[0];
      OneFrameCounts(limits, s, f, log);
      OneFrameNamesFirst(limits, s, f, log);
      var now := FrameSights(limits, PrunedState(limits, s, f.now), {}, f.obstacles, f.now);
      var next := Updated(limits, s, f.obstacles, f.now).0;
      FramesNameFirst(limits, next, frames[1..], log + now);
      RegroupAll(log, now, History(limits, next, frames[1..]));
      NamesConcat(FrameBirths(limits, s, f), AllBirths(limits, next, frames[1..]), FirstIds(log));
    }
  }

  ghost function FrameBirths(limits: Limits, s: TrackerState, f: Sighting): seq<Birth> {
    Births(limits, PrunedState(limits, s, f.now), {}, f.obstacles, f.now)
  }

  lemma OneFrameNamesFirst(limits: Limits, s: TrackerState, f: Sighting, log: seq<Sight>)
    requires WellNamed(s) && NoneSupplied(f.obstacles) && Counted(s, log)
    ensures FirstIds(log + FrameSights(limits, PrunedState(limits, s, f.now), {}, f.obstacles, f.now)) ==
      FirstIds(log) + Names(FrameBirths(limits, s, f))
  {
    PruningCounts(limits, s, f.now, log);
    FrameNamesFirst(limits, PrunedState(limits, s, f.now), {}, f.obstacles, f.now, log);
  }

  lemma RegroupAll(a: seq<Sight>, b: seq<Sight>, c: seq<Sight>)
    ensures a + b + c == a + (b + c)
  {
  }

  /**
   * Without supplied ids, the ids ever reported are, in the order of their first report, those made of the
   * source and of the counter, which counts them from one.
   */
  lemma NewIdsAreCounted(limits: Limits, frames: seq<Sighting>)
    requires Unsupplied(frames)
    ensures var births := AllBirths(limits, NEW_TRACKER, frames);
      && FirstIds(History(limits, NEW_TRACKER, frames)) == Names(births)
      && forall i | 0 <= i < |births| :: births[i].counter == i + 1
  {
    FramesNameFirst(limits, NEW_TRACKER, frames, []);
    FramesAreSound(limits, NEW_TRACKER, frames);
    assert [] + History(limits, NEW_TRACKER, frames) == History(limits, NEW_TRACKER, frames);
  }

  // ---------- The order of candidates ----------

  /** The order of texts: the first difference decides, and a beginning comes before the whole. */
  ghost predicate Before(a: string, b: string) {
    exists k: nat :: DiffersAt(a, b, k)
  }

  predicate DiffersAt(a: string, b: string, k: nat) {
    && k <= |a| && k < |b| && a[..k] == b[..k]
    && (k == |a| || a[k] < b[k])
  }

  lemma {:induction false} TextBelowIff(a: string, b: string)
    ensures TextBelow(a, b) <==> Before(a, b)
    decreases |a|
  {
    if a == [] || b == [] {
      assert b != [] ==> DiffersAt(a, b, 0);
    } else {
      TextBelowIff(a[1..], b[1..]);
      assert a[0] < b[0] ==> DiffersAt(a, b, 0);
      if a[0] == b[0] && Before(a[1..], b[1..]) {
        var k: nat :| DiffersAt(a[1..], b[1..], k);
        assert a[..k + 1] == [a[0]] + a[1..][..k] && b[..k + 1] == [b[0]] + b[1..][..k];
        assert DiffersAt(a, b, k + 1);
      }
      if Before(a, b) {
        var k: nat :| DiffersAt(a, b, k);
        if k > 0 {
          assert a[..k][0] == b[..k][0];
          assert a[1..][..k - 1] == a[..k][1..] && b[1..][..k - 1] == b[..k][1..];
          assert DiffersAt(a[1..], b[1..], k - 1);
        }
      }
    }
  }

  /** The square of the distance from a track. */
  function Off(o: DetectedObstacle, t: Track): real {
    (o.x - t.x) * (o.x - t.x) + (o.y - t.y) * (o.y - t.y)
  }

  /** A free track of the source in range. */
  predicate Free(limits: Limits, tracks: Tracks, taken: set<string>, o: DetectedObstacle, id: string) {
    && id in tracks && id !in taken && tracks[id].source == o.source
    && Off(o, tracks[id]) <= limits.distance * limits.distance
  }

  /** Less far off, or equally far and with the smaller id. */
  ghost predicate Ahead(tracks: Tracks, o: DetectedObstacle, a: string, b: string)
    requires a in tracks && b in tracks
  {
    Off(o, tracks[a]) < Off(o, tracks[b]) || (Off(o, tracks[a]) == Off(o, tracks[b]) && Before(a, b))
  }

  ghost predicate Least(limits: Limits, tracks: Tracks, taken: set<string>, o: DetectedObstacle, id: string) {
    && Free(limits, tracks, taken, o, id)
    && forall other | Free(limits, tracks, taken, o, other) && other != id :: Ahead(tracks, o, id, other)
  }

  lemma CandidateIsFree(limits: Limits, tracks: Tracks, taken: set<string>, o: DetectedObstacle, id: string)
    ensures Candidate(limits, tracks, taken, o, id) <==> Free(limits, tracks, taken, o, id)
  {
    if id in tracks {
      OffIsSquaredDistance(o, tracks[id]);
      assert Square(limits.distance) == limits.distance * limits.distance;
    }
  }

  lemma CloserIsAhead(tracks: Tracks, o: DetectedObstacle, a: string, b: string)
    requires a in tracks && b in tracks
    ensures Closer(tracks, o, a, b) <==> Ahead(tracks, o, a, b)
  {
    OffIsSquaredDistance(o, tracks[a]);
    OffIsSquaredDistance(o, tracks[b]);
    TextBelowIff(a, b);
  }

  lemma OffIsSquaredDistance(o: DetectedObstacle, t: Track)
    ensures SquaredDistance(o, t) == Off(o, t)
  {
    assert Square(o.x - t.x) == (o.x - t.x) * (o.x - t.x);
    assert Square(o.y - t.y) == (o.y - t.y) * (o.y - t.y);
  }

  /** The nearest candidate is the least of the free tracks in the order of distance and then of ids. */
  lemma NearestIsLeast(limits: Limits, tracks: Tracks, taken: set<string>, o: DetectedObstacle, id: string)
    ensures Nearest(limits, tracks, taken, o, id) <==> Least(limits, tracks, taken, o, id)
  {
    forall other
      ensures Candidate(limits, tracks, taken, o, other) <==> Free(limits, tracks, taken, o, other)
      ensures id in tracks && other in tracks ==> (Closer(tracks, o, id, other) <==> Ahead(tracks, o, id, other))
    {
      CandidateIsFree(limits, tracks, taken, o, other);
      if id in tracks && other in tracks {
        CloserIsAhead(tracks, o, id, other);
      }
    }
  }
}
