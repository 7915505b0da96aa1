/** What the stabiliser guarantees for every frame and over every run of frames. */
module KinectRuns {
  import opened PointCloud
  import opened Length
  import opened Kinect

  // ------------------------------------------------------------- speed caps

  /** A motion within the limit, or negligible, is untouched; any other is shortened to exactly
      the limit. */
  lemma LimitDeltaIsLimited(len: LengthFunction, origin: Point, target: Point, maxDelta: real)
    requires IsLength(len) && 0.0 <= maxDelta
    ensures var r, wanted := LimitDelta(len, origin, target, maxDelta), len(Minus(target, origin));
      if wanted <= maxDelta || wanted <= NEGLIGIBLE then r == target
      else len(Minus(r, origin)) == maxDelta
  {
    var delta := Minus(target, origin);
    if maxDelta < len(delta) && NEGLIGIBLE < len(delta) {
      LengthOfRescale(len, delta, maxDelta);
      PlusMinus(origin, Scale(delta, maxDelta / len(delta)));
    }
  }

  lemma ZeroLength(len: LengthFunction, p: Point)
    requires IsLength(len)
    ensures len(Minus(p, p)) == 0.0
  {
    assert SquareOf(len(Minus(p, p))) == Squared(Minus(p, p));
  }

  lemma CapIsPositive(t: Tracking, j: nat, dt: real)
    requires ValidTracking(t) && 0.01 <= dt
    ensures NEGLIGIBLE <= Times(Times(t.maxJointSpeed, SpeedScale(j)), dt)
  {
    var v, k := t.maxJointSpeed, SpeedScale(j);
    assert v * k == k + (v - 1.0) * k && 0.0 <= (v - 1.0) * k by { TimesNonNegative(v - 1.0, k); }
    var c := Times(v, k);
    assert 0.5 <= c;
    assert c * dt == 0.5 * dt + (c - 0.5) * dt && 0.0 <= (c - 0.5) * dt by { TimesNonNegative(c - 0.5, dt); }
  }

  /** Before the bone clamp, every joint moves relative to its parent's own motion by
      at most its share of the speed limit; an untracked joint does not move at all. */
  lemma RelativeSpeedIsCapped(t: Tracking, len: LengthFunction, s: Scene, w: Walk, j: nat)
    requires IsLength(len) && ValidTracking(t) && ValidScene(s) && j < JOINTS && Kinect.Covers(w, j)
    ensures len(Minus(Candidate(t, len, s, w, j), Predicted(s, w, j))) <=
      Times(Times(t.maxJointSpeed, SpeedScale(j)), s.dt)
    ensures !ReallyTracked(s.raw[j]) ==> Candidate(t, len, s, w, j) == Predicted(s, w, j)
  {
    hide Times, SpeedScale, Minus, LimitDelta, ReallyTracked, Predicted, IsLength, ValidTracking;
    CapIsPositive(t, j, s.dt);
    ZeroLength(len, Predicted(s, w, j));
    if ReallyTracked(s.raw[j]) {
      LimitDeltaIsLimited(len, Predicted(s, w, j), s.raw[j].position,
                          Times(Times(t.maxJointSpeed, SpeedScale(j)), s.dt));
    }
  }

  // ------------------------------------------------------------ bone lengths

  ghost predicate WithinTolerance(length: real, expected: real, tolerance: real) {
    Times(expected, 1.0 - tolerance) - NEGLIGIBLE <= length <= Times(expected, 1.0 + tolerance) + NEGLIGIBLE
  }

  lemma ClampSegmentKeepsLength(t: Tracking, len: LengthFunction, parent: Point, candidate: Point, expected: real)
    requires IsLength(len) && ValidTracking(t) && KNOWN_BONE < expected
    ensures var length := len(Minus(ClampSegment(t, len, parent, candidate, expected), parent));
      length <= NEGLIGIBLE || WithinTolerance(length, expected, t.boneTolerance)
  {
    var segment := Minus(candidate, parent);
    var length := len(segment);
    if NEGLIGIBLE < length {
      ToleranceOrder(expected, t.boneTolerance);
      var low, high := Times(expected, 1.0 - t.boneTolerance), Times(expected, 1.0 + t.boneTolerance);
      var clamped := Clamp(length, low, high);
      if NEGLIGIBLE < Abs(clamped - length) {
        LengthOfRescale(len, segment, clamped);
        PlusMinus(parent, Scale(segment, clamped / length));
      }
    }
  }

  lemma {:induction false} WalkPrefix(t: Tracking, len: LengthFunction, s: Scene, n: nat, k: nat)
    requires ValidTracking(t) && ValidScene(s) && k <= n <= JOINTS
    ensures var w, v := FilterWalk(t, len, s, n), FilterWalk(t, len, s, k);
      w.filtered[..k] == v.filtered && w.learned[..k] == v.learned && w.states[..k] == v.states
  {
    hide Candidate, ClampSegment, LearnBone;
    if k < n {
      WalkPrefix(t, len, s, n - 1, k);
      var w, v := FilterWalk(t, len, s, n), FilterWalk(t, len, s, n - 1);
      assert w.filtered[..k] == v.filtered[..k];
      assert w.learned[..k] == v.learned[..k];
      assert w.states[..k] == v.states[..k];
    }
  }

  /** Joint j of a finished walk is what one step made of the walk up to j. */
  lemma WalkAt(t: Tracking, len: LengthFunction, s: Scene, j: nat)
    requires ValidTracking(t) && ValidScene(s) && j < JOINTS
    ensures var w, v := FilterWalk(t, len, s, JOINTS), FilterWalk(t, len, s, j);
      && w.filtered[..j] == v.filtered
      && w.filtered[j] == (
        if j == 0 then Candidate(t, len, s, v, j)
        else ClampSegment(t, len, w.filtered[Parent(j)], Candidate(t, len, s, v, j), s.bones[j]))
      && w.learned[j] == (if j == 0 then s.bones[0] else LearnBone(t, len, s, j))
  {
    hide Candidate, ClampSegment, LearnBone;
    WalkPrefix(t, len, s, JOINTS, j + 1);
    WalkPrefix(t, len, s, JOINTS, j);
    var w, u := FilterWalk(t, len, s, JOINTS), FilterWalk(t, len, s, j + 1);
    assert w.filtered[j] == w.filtered[..j + 1][j] == u.filtered[j];
    assert w.learned[j] == w.learned[..j + 1][j] == u.learned[j];
    if 0 < j {
      assert w.filtered[Parent(j)] == w.filtered[..j][Parent(j)];
    }
  }

  /** Every limb with a known length ends up within the tolerance of that length from
      its already filtered parent, unless it is degenerate. */
  lemma BonesKeepTheirLength(t: Tracking, len: LengthFunction, s: Scene, j: nat)
    requires IsLength(len) && ValidTracking(t) && ValidScene(s) && 0 < j < JOINTS
    requires KNOWN_BONE < s.bones[j]
    ensures var w := FilterWalk(t, len, s, JOINTS);
      var length := len(Minus(w.filtered[j], w.filtered[Parent(j)]));
      length <= NEGLIGIBLE || WithinTolerance(length, s.bones[j], t.boneTolerance)
  {
    WalkAt(t, len, s, j);
    hide FilterWalk, Candidate, ClampSegment, WithinTolerance, Minus;
    var w, v := FilterWalk(t, len, s, JOINTS), FilterWalk(t, len, s, j);
    ClampSegmentKeepsLength(t, len, w.filtered[Parent(j)], Candidate(t, len, s, v, j), s.bones[j]);
  }

  /** The hip moves at most half the joint speed limit per frame. */
  lemma HipSpeedIsCapped(t: Tracking, len: LengthFunction, s: Scene)
    requires IsLength(len) && ValidTracking(t) && ValidScene(s)
    ensures len(Minus(FilterWalk(t, len, s, JOINTS).filtered[0], s.previous[0])) <=
      Times(Times(t.maxJointSpeed, 0.5), s.dt)
  {
    WalkAt(t, len, s, 0);
    RelativeSpeedIsCapped(t, len, s, FilterWalk(t, len, s, 0), 0);
  }

  /** The clamp only rescales the segment, and leaves one that is within tolerance alone. */
  lemma ClampSegmentRescales(t: Tracking, len: LengthFunction, parent: Point, candidate: Point, expected: real)
    returns (k: real)
    requires IsLength(len) && ValidTracking(t)
    ensures 0.0 <= k
    ensures Minus(ClampSegment(t, len, parent, candidate, expected), parent) == Scale(Minus(candidate, parent), k)
    ensures KeepsLength(t, expected, len(Minus(candidate, parent))) ==> k == 1.0
  {
    var segment := Minus(candidate, parent);
    var length := len(segment);
    k := 1.0;
    ScaleByWhole(segment);
    if KNOWN_BONE < expected && NEGLIGIBLE < length {
      ToleranceOrder(expected, t.boneTolerance);
      var low, high := Times(expected, 1.0 - t.boneTolerance), Times(expected, 1.0 + t.boneTolerance);
      var clamped := Clamp(length, low, high);
      if NEGLIGIBLE < Abs(clamped - length) {
        k := clamped / length;
        Requotient(clamped, length);
        PlusMinus(parent, Scale(segment, k));
      }
    }
  }

  lemma ScaleByWhole(v: Point)
    ensures Scale(v, 1.0) == v
  {
  }

  /** A segment that needs no correction: its bone is not known, it is negligible, or it is
      within the tolerance. */
  ghost predicate KeepsLength(t: Tracking, expected: real, length: real) {
    || expected <= KNOWN_BONE || length <= NEGLIGIBLE
    || Times(expected, 1.0 - t.boneTolerance) <= length <= Times(expected, 1.0 + t.boneTolerance)
  }

  /** A limb whose endpoint is not really tracked follows its parent: its vector from the parent
      keeps its direction, and its length, too, unless the bone clamp corrects that. */
  lemma UntrackedLimbFollowsItsParent(t: Tracking, len: LengthFunction, s: Scene, j: nat) returns (k: real)
    requires IsLength(len) && ValidTracking(t) && ValidScene(s) && 0 < j < JOINTS
    requires !ReallyTracked(s.raw[j])
    ensures var w, before := FilterWalk(t, len, s, JOINTS), Minus(s.previous[j], s.previous[Parent(j)]);
      && Minus(w.filtered[j], w.filtered[Parent(j)]) == Scale(before, k) && 0.0 <= k
      && (KeepsLength(t, s.bones[j], len(before)) ==>
            k == 1.0 && Minus(w.filtered[j], w.filtered[Parent(j)]) == before)
  {
    WalkAt(t, len, s, j);
    hide FilterWalk, ClampSegment, KeepsLength;
    var w, v := FilterWalk(t, len, s, JOINTS), FilterWalk(t, len, s, j);
    var p := Parent(j);
    assert w.filtered[p] == v.filtered[p];
    var candidate := Plus(s.previous[j], Minus(w.filtered[p], s.previous[p]));
    assert Candidate(t, len, s, v, j) == candidate;
    assert Minus(candidate, w.filtered[p]) == Minus(s.previous[j], s.previous[p]);
    k := ClampSegmentRescales(t, len, w.filtered[p], candidate, s.bones[j]);
    ScaleByWhole(Minus(s.previous[j], s.previous[p]));
  }

  // --------------------------------------------------------------- whole runs

  ghost predicate BonesInRange(bones: seq<real>) {
    forall j | 0 <= j < |bones| :: bones[j] == 0.0 || IsBone(bones[j])
  }

  lemma LearningKeepsRange(t: Tracking, len: LengthFunction, s: Scene, j: nat)
    requires ValidScene(s) && 0 < j < JOINTS && (s.bones[j] == 0.0 || IsBone(s.bones[j]))
    ensures LearnBone(t, len, s, j) == 0.0 || IsBone(LearnBone(t, len, s, j))
  {
  }

  lemma {:induction false} FilterKeepsRange(t: Tracking, len: LengthFunction, s: Scene, n: nat)
    requires ValidTracking(t) && ValidScene(s) && n <= JOINTS && BonesInRange(s.bones)
    ensures BonesInRange(FilterWalk(t, len, s, n).learned)
  {
    hide Candidate, ClampSegment, LearnBone;
    if 0 < n {
      FilterKeepsRange(t, len, s, n - 1);
      if 1 < n {
        LearningKeepsRange(t, len, s, n - 1);
      }
    }
  }

  lemma {:induction false} ResetKeepsRange(len: LengthFunction, raw: seq<Joint>, n: nat)
    requires n <= JOINTS == |raw|
    ensures BonesInRange(ResetWalk(len, raw, n).learned)
  {
    hide Minus, IsValid;
    if 0 < n {
      ResetKeepsRange(len, raw, n - 1);
    }
  }

  /** One stabilised frame, or the loss of the selected skeleton. */
  datatype Event = Frame(trackingId: nat, raw: seq<Joint>, now: nat) | Lost

  ghost predicate IsRun(t: Tracking, len: LengthFunction, filters: seq<Filter>, events: seq<Event>) {
    && ValidTracking(t) && |filters| == |events| + 1
    && ValidFilter(filters[0]) && !filters[0].ready
    && (forall j | 0 <= j < JOINTS :: filters[0].learned[j] == 0.0)
    && forall k | 0 <= k < |events| :: Follows(t, len, filters[k], events[k], filters[k + 1])
  }

  ghost predicate Follows(t: Tracking, len: LengthFunction, f: Filter, event: Event, f': Filter)
    requires ValidTracking(t)
  {
    && ValidFilter(f)
    && match event
       case Lost => f' == f.(ready := false)
       case Frame(id, raw, now) => |raw| == JOINTS && f' == Next(t, len, f, id, raw, now)
  }

  /** In every run, every learned bone length is 0 or stays within [0.03, 1.20] m. */
  lemma {:induction false} LearnedBonesStayInRange(t: Tracking, len: LengthFunction,
                                                   filters: seq<Filter>, events: seq<Event>, k: nat)
    requires IsRun(t, len, filters, events) && k < |filters|
    ensures ValidFilter(filters[k]) && BonesInRange(filters[k].learned)
  {
    if 0 < k {
      LearnedBonesStayInRange(t, len, filters, events, k - 1);
      hide FilterWalk, ResetWalk;
      var f := filters[k - 1];
      assert Follows(t, len, f, events[k - 1], filters[k - 1 + 1]);
      match events[k - 1]
      case Lost =>
      case Frame(id, raw, now) =>
        if MustReset(f, id, now) {
          ResetKeepsRange(len, raw, JOINTS);
        } else {
          FilterKeepsRange(t, len, Scene(f.filtered, f.learned, raw, ElapsedSeconds(f.tick, now)), JOINTS);
        }
    }
  }

  /** In every run, a frame that continues the same body keeps every learned limb
      within the tolerance of its learned length and caps the hip's motion. */
  lemma StabilizedFrameIsPlausible(t: Tracking, len: LengthFunction,
                                   filters: seq<Filter>, events: seq<Event>, k: nat, j: nat)
    requires IsLength(len) && IsRun(t, len, filters, events) && k < |events| && 0 < j < JOINTS
    requires events[k].Frame? && !MustReset(filters[k], events[k].trackingId, events[k].now)
    ensures ValidFilter(filters[k]) && ValidFilter(filters[k + 1])
    ensures len(Minus(filters[k + 1].filtered[0], filters[k].filtered[0])) <=
      Times(Times(t.maxJointSpeed, 0.5), ElapsedSeconds(filters[k].tick, events[k].now))
    ensures filters[k].learned[j] != 0.0 ==>
      var length := len(Minus(filters[k + 1].filtered[j], filters[k + 1].filtered[Parent(j)]));
      length <= NEGLIGIBLE || WithinTolerance(length, filters[k].learned[j], t.boneTolerance)
  {
    LearnedBonesStayInRange(t, len, filters, events, k);
    hide FilterWalk, WithinTolerance, Minus;
    var f := filters[k];
    var dt := ElapsedSeconds(f.tick, events[k].now);
    assert Follows(t, len, f, events[k], filters[k + 1]);
    var s := Scene(f.filtered, f.learned, events[k].raw, dt);
    HipSpeedIsCapped(t, len, s);
    if f.learned[j] != 0.0 {
      BonesKeepTheirLength(t, len, s, j);
    }
  }

  // ------------------------------------------------------------ tracked joints

  /** The sensor sees the joint, at a position it can have. */
  predicate Seen(joint: Joint) {
    && joint.state == Tracked
    && -10.0 < joint.position.x < 10.0 && -10.0 < joint.position.y < 10.0 && 0.1 < joint.position.z < 10.0
  }

  /** How far joint j may move against its parent in dt seconds. */
  function CapOf(t: Tracking, j: nat, dt: real): real {
    Times(Times(t.maxJointSpeed, if j == 0 then 0.5 else if j in {1, 2, 3, 4, 8, 12, 16} then 0.65 else 1.0), dt)
  }

  /** r is the target if that is within cap of the origin, and else exactly cap away from the origin
      on the way to the target. */
  ghost predicate IsCapped(len: LengthFunction, origin: Point, target: Point, cap: real, r: Point) {
    var wanted := len(Minus(target, origin));
    if wanted <= cap then r == target
    else
      && 0.0 < wanted
      && len(Minus(r, origin)) == cap
      && Minus(r, origin) == Scale(Minus(target, origin), cap / wanted)
  }

  lemma CandidateIsCapped(t: Tracking, len: LengthFunction, s: Scene, w: Walk, j: nat)
    requires IsLength(len) && ValidTracking(t) && ValidScene(s) && j < JOINTS && Kinect.Covers(w, j)
    ensures if Seen(s.raw[j]) then
              IsCapped(len, Predicted(s, w, j), s.raw[j].position, CapOf(t, j, s.dt), Candidate(t, len, s, w, j))
            else Candidate(t, len, s, w, j) == Predicted(s, w, j)
  {
    hide Times, IsLength, ValidTracking, Predicted;
    if Seen(s.raw[j]) {
      var origin, target, cap := Predicted(s, w, j), s.raw[j].position, CapOf(t, j, s.dt);
      CapIsPositive(t, j, s.dt);
      LimitDeltaIsLimited(len, origin, target, cap);
      if cap < len(Minus(target, origin)) {
        PlusMinus(origin, Scale(Minus(target, origin), cap / len(Minus(target, origin))));
      }
    }
  }

  /** What the bone clamp makes of a segment: it keeps the direction; a segment that needs no
      correction is kept, and one that is clearly too short or too long gets the nearest length. */
  ghost predicate IsClamped(t: Tracking, len: LengthFunction, expected: real, wanted: Point, segment: Point) {
    var length := len(wanted);
    var low, high := Times(expected, 1.0 - t.boneTolerance), Times(expected, 1.0 + t.boneTolerance);
    && (exists k :: 0.0 <= k && segment == Scale(wanted, k))
    && (KeepsLength(t, expected, length) ==> segment == wanted)
    && (0.02 < expected && 0.00001 < length && length < low - 0.00001 ==> len(segment) == low)
    && (0.02 < expected && 0.00001 < length && high + 0.00001 < length ==> len(segment) == high)
  }

  lemma ClampSegmentIsClamped(t: Tracking, len: LengthFunction, parent: Point, candidate: Point, expected: real)
    requires IsLength(len) && ValidTracking(t)
    ensures IsClamped(t, len, expected, Minus(candidate, parent),
                      Minus(ClampSegment(t, len, parent, candidate, expected), parent))
    ensures KeepsLength(t, expected, len(Minus(candidate, parent))) ==>
              ClampSegment(t, len, parent, candidate, expected) == candidate
  {
    var k := ClampSegmentRescales(t, len, parent, candidate, expected);
    var segment := Minus(candidate, parent);
    var length := len(segment);
    ScaleByWhole(segment);
    if KNOWN_BONE < expected && NEGLIGIBLE < length {
      ToleranceOrder(expected, t.boneTolerance);
      var clamped := Clamp(length, Times(expected, 1.0 - t.boneTolerance), Times(expected, 1.0 + t.boneTolerance));
      if NEGLIGIBLE < Abs(clamped - length) {
        LengthOfRescale(len, segment, clamped);
        PlusMinus(parent, Scale(segment, clamped / length));
      }
    }
  }

  /** The hip goes where it is seen, at most its cap, and stays where it was if it is not seen. */
  ghost predicate HipFollows(t: Tracking, len: LengthFunction, before: Point, raw: Joint, dt: real, hip: Point) {
    if Seen(raw) then IsCapped(len, before, raw.position, CapOf(t, 0, dt), hip) else hip == before
  }

  /** A limb is carried along with its parent; from there it goes where its joint is seen, at most its
      cap, and the bone clamp has the last word.  wanted is the point before the clamp. */
  ghost predicate LimbFollows(t: Tracking, len: LengthFunction, j: nat, carried: Point, raw: Joint, dt: real,
                              bone: real, parent: Point, wanted: Point, end: Point)
  {
    && (if Seen(raw) then IsCapped(len, carried, raw.position, CapOf(t, j, dt), wanted) else wanted == carried)
    && IsClamped(t, len, bone, Minus(wanted, parent), Minus(end, parent))
    && (KeepsLength(t, bone, len(Minus(wanted, parent))) ==> end == wanted)
  }

  /** The joint a limb hangs on: arms at the shoulders' centre, legs at the hip, others in a row. */
  function JointBefore(j: nat): (p: nat)
    requires 0 < j < JOINTS
    ensures p < j
  {
    if j == 4 || j == 8 then 2 else if j == 12 || j == 16 then 0 else j - 1
  }

  lemma JointBeforeIsParent(j: nat)
    requires 0 < j < JOINTS
    ensures JointBefore(j) == Parent(j)
  {
  }

  /** The whole body after a frame. */
  ghost predicate BodyFollows(t: Tracking, len: LengthFunction, previous: seq<Point>, bones: seq<real>, raw: seq<Joint>,
                              dt: real, filtered: seq<Point>)
    requires |previous| == |bones| == |raw| == |filtered| == JOINTS
  {
    && HipFollows(t, len, previous[0], raw[0], dt, filtered[0])
    && forall j | 0 < j < JOINTS :: LimbFollowsAt(t, len, previous, bones, raw, dt, filtered, j)
  }

  ghost predicate LimbFollowsAt(t: Tracking, len: LengthFunction, previous: seq<Point>, bones: seq<real>,
                                raw: seq<Joint>, dt: real, filtered: seq<Point>, j: nat)
    requires |previous| == |bones| == |raw| == |filtered| == JOINTS && 0 < j < JOINTS
  {
    var p := JointBefore(j);
    var carried := Plus(previous[j], Minus(filtered[p], previous[p]));
    exists wanted :: LimbFollows(t, len, j, carried, raw[j], dt, bones[j], filtered[p], wanted, filtered[j])
  }

  /** A finished frame follows what the sensor sees. */
  lemma FrameFollowsSensor(t: Tracking, len: LengthFunction, s: Scene)
    requires IsLength(len) && ValidTracking(t) && ValidScene(s)
    ensures BodyFollows(t, len, s.previous, s.bones, s.raw, s.dt, FilterWalk(t, len, s, JOINTS).filtered)
  {
    hide Candidate, ClampSegment, FilterWalk, IsCapped, IsClamped, KeepsLength, Seen, CapOf, Minus, Plus, IsLength, Parent;
    WalkAt(t, len, s, 0);
    CandidateIsCapped(t, len, s, FilterWalk(t, len, s, 0), 0);
    forall j | 0 < j < JOINTS
      ensures LimbFollowsAt(t, len, s.previous, s.bones, s.raw, s.dt, FilterWalk(t, len, s, JOINTS).filtered, j)
    {
      LimbFollowsSensor(t, len, s, j);
    }
  }

  lemma LimbFollowsSensor(t: Tracking, len: LengthFunction, s: Scene, j: nat)
    requires IsLength(len) && ValidTracking(t) && ValidScene(s) && 0 < j < JOINTS
    ensures LimbFollowsAt(t, len, s.previous, s.bones, s.raw, s.dt, FilterWalk(t, len, s, JOINTS).filtered, j)
  {
    hide Candidate, ClampSegment, FilterWalk, IsCapped, IsClamped, KeepsLength, Seen, CapOf, Minus, Plus, IsLength, Parent;
    WalkAt(t, len, s, j);
    var w, v := FilterWalk(t, len, s, JOINTS), FilterWalk(t, len, s, j);
    CandidateIsCapped(t, len, s, v, j);
    JointBeforeIsParent(j);
    var p := Parent(j);
    assert v.filtered[p] == w.filtered[p];
    var wanted := Candidate(t, len, s, v, j);
    ClampSegmentIsClamped(t, len, w.filtered[p], wanted, s.bones[j]);
    assert LimbFollows(t, len, j, Predicted(s, v, j), s.raw[j], s.dt, s.bones[j], w.filtered[p], wanted, w.filtered[j]);
  }

  /** Frames of one body at most a second apart. */
  ghost predicate Continues(events: seq<Event>, k: nat)
    requires 0 < k < |events|
  {
    && events[k - 1].Frame? && events[k].Frame? && events[k - 1].trackingId == events[k].trackingId
    && 0 < events[k - 1].now <= events[k].now <= events[k - 1].now + 1000
  }

  /** In every run a frame that continues a body follows what the sensor sees, from where the body
      was, over the time since the last frame, between 10 and 150 ms. */
  lemma RunFollowsSensor(t: Tracking, len: LengthFunction, filters: seq<Filter>, events: seq<Event>, k: nat)
    requires IsLength(len) && IsRun(t, len, filters, events) && 0 < k < |events| && Continues(events, k)
    ensures ValidFilter(filters[k]) && ValidFilter(filters[k + 1]) && |events[k].raw| == JOINTS
    ensures var ms := (events[k].now - events[k - 1].now) as real;
      var dt := if ms < 10.0 then 0.01 else if 150.0 < ms then 0.15 else ms / 1000.0;
      BodyFollows(t, len, filters[k].filtered, filters[k].learned, events[k].raw, dt, filters[k + 1].filtered)
  {
    hide FilterWalk, ResetWalk, BodyFollows, IsLength;
    var f := filters[k];
    assert Follows(t, len, filters[k - 1], events[k - 1], filters[k - 1 + 1]);
    assert Follows(t, len, f, events[k], filters[k + 1]);
    assert f.ready && f.trackingId == events[k].trackingId && f.tick == events[k - 1].now;
    FrameFollowsSensor(t, len, Scene(f.filtered, f.learned, events[k].raw, ElapsedSeconds(f.tick, events[k].now)));
  }

  /** A limb that is seen with its parent is learned at once, and from then on the learned length
      goes a hundredth of the way to every length within the tolerance. */
  lemma BoneIsLearned(t: Tracking, len: LengthFunction, s: Scene, j: nat)
    requires ValidTracking(t) && ValidScene(s) && 0 < j < JOINTS
    requires Seen(s.raw[j]) && Seen(s.raw[JointBefore(j)])
    ensures var length := len(Minus(s.raw[j].position, s.raw[JointBefore(j)].position));
      var learned := FilterWalk(t, len, s, JOINTS).learned[j];
      0.03 <= length <= 1.2 ==>
        && (s.bones[j] <= 0.02 ==> learned == length)
        && var low, high := Times(s.bones[j], 1.0 - t.boneTolerance), Times(s.bones[j], 1.0 + t.boneTolerance);
           0.02 < s.bones[j] && low <= length <= high ==> learned - length == 0.99 * (s.bones[j] - length)
  {
    WalkAt(t, len, s, j);
    JointBeforeIsParent(j);
    hide FilterWalk, Times, Minus, Parent, JointBefore;
  }

  /** A position the sensor can give. */
  predicate InRange(p: Point) {
    -10.0 < p.x < 10.0 && -10.0 < p.y < 10.0 && 0.1 < p.z < 10.0
  }

  /** After a reset every joint is where the sensor has it, in the state it gives, if it can be
      there, and otherwise inferred at the joint before it, the hip two metres away; a limb seen at
      both ends is known, any other is not. */
  lemma {:induction false} ResetFollowsSensor(len: LengthFunction, raw: seq<Joint>, n: nat, j: nat)
    requires j < n <= JOINTS == |raw|
    ensures var w := ResetWalk(len, raw, n);
      && (InRange(raw[j].position) ==> w.filtered[j] == raw[j].position && w.states[j] == raw[j].state)
      && (!InRange(raw[j].position) ==>
            && w.filtered[j] == (if j == 0 then Point(0.0, 0.0, 2.0) else w.filtered[JointBefore(j)])
            && w.states[j] == Inferred)
      && (0 < j ==>
            var length := len(Minus(raw[j].position, raw[JointBefore(j)].position));
            w.learned[j] == if Seen(raw[j]) && Seen(raw[JointBefore(j)]) && 0.03 <= length <= 1.2 then length else 0.0)
  {
    hide Minus, Parent, JointBefore;
    if 0 < j {
      JointBeforeIsParent(j);
    }
    if j < n - 1 {
      ResetFollowsSensor(len, raw, n - 1, j);
    } else if 0 < j {
      ResetFollowsSensor(len, raw, n - 1, JointBefore(j));
    }
  }

  /** The joints that come out as tracked are those the sensor sees. */
  lemma StatesFollowSensor(t: Tracking, len: LengthFunction, s: Scene, j: nat)
    requires ValidTracking(t) && ValidScene(s) && j < JOINTS
    ensures FilterWalk(t, len, s, JOINTS).states[j] == if Seen(s.raw[j]) then Tracked else Inferred
  {
    WalkPrefix(t, len, s, JOINTS, j + 1);
    hide Candidate, ClampSegment, LearnBone;
    assert FilterWalk(t, len, s, JOINTS).states[j] == FilterWalk(t, len, s, JOINTS).states[..j + 1][j];
  }
}
