/** The Kinect skeleton stabiliser: a walk over the joint tree, parent before child,
    with parent-relative speed caps, bone-length clamps and slow bone learning.
    Coordinates are reals; the Euclidean length is a parameter. */
module Kinect {
  import opened PointCloud
  import opened Length

  const JOINTS := 20
  const JOINT_PARENT: seq<int> :=
    [-1, 0, 1, 2, 2, 4, 5, 6, 2, 8, 9, 10, 0, 12, 13, 14, 0, 16, 17, 18]

  const MINIMUM_BONE := 0.03
  const MAXIMUM_BONE := 1.2
  const KNOWN_BONE := 0.02
  const NEGLIGIBLE := 0.00001

  datatype JointState = NotTracked | Inferred | Tracked
  datatype Joint = Joint(position: Point, state: JointState)

  /** max_joint_speed_mps and bone_length_tolerance, as the constructor clamps them. */
  datatype Tracking = Tracking(maxJointSpeed: real, boneTolerance: real)

  predicate ValidTracking(t: Tracking) {
    1.0 <= t.maxJointSpeed <= 20.0 && 0.1 <= t.boneTolerance <= 1.0
  }

  /** vec_is_valid; every real is finite. */
  predicate IsValid(v: Point) {
    -10.0 < v.x < 10.0 && -10.0 < v.y < 10.0 && 0.1 < v.z < 10.0
  }

  function Clamp(v: real, low: real, high: real): (r: real)
    requires low <= high
    ensures low <= r <= high
    ensures low <= v <= high ==> r == v
  {
    if v < low then low else if high < v then high else v
  }

  function Abs(v: real): real {
    if v < 0.0 then -v else v
  }

  lemma ParentBeforeChild(j: nat)
    requires j < JOINTS
    ensures |JOINT_PARENT| == JOINTS && -1 <= JOINT_PARENT[j] < j
    ensures JOINT_PARENT[j] == -1 <==> j == 0
  {
  }

  function Parent(j: nat): (p: int)
    requires j < JOINTS
    ensures -1 <= p < j && (p == -1 <==> j == 0)
  {
    ParentBeforeChild(j);
    JOINT_PARENT[j]
  }

  function LimitDelta(len: LengthFunction, origin: Point, target: Point, maxDelta: real): Point {
    var delta := Minus(target, origin);
    if len(delta) <= maxDelta || len(delta) <= NEGLIGIBLE then target
    else Plus(origin, Scale(delta, maxDelta / len(delta)))
  }

  function SpeedScale(j: nat): real {
    if j == 0 then 0.5
    else if j in {1, 2, 3, 4, 8, 12, 16} then 0.65
    else 1.0
  }

  /** Seconds between frames, clamped. */
  function ElapsedSeconds(tick: nat, now: nat): (dt: real)
    ensures 0.01 <= dt <= 0.15
  {
    Clamp((now - tick) as real / 1000.0, 0.01, 0.15)
  }

  // ------------------------------------------------------ one joint of the walk

  /** The joints already walked: filtered positions, bone lengths, output states. */
  datatype Walk = Walk(filtered: seq<Point>, learned: seq<real>, states: seq<JointState>)

  predicate Covers(w: Walk, n: nat) {
    |w.filtered| == |w.learned| == |w.states| == n
  }

  function Extend(w: Walk, position: Point, bone: real, state: JointState): Walk {
    Walk(w.filtered + [position], w.learned + [bone], w.states + [state])
  }

  predicate IsBone(length: real) {
    MINIMUM_BONE <= length <= MAXIMUM_BONE
  }

  function ResetJoint(len: LengthFunction, raw: seq<Joint>, w: Walk, j: nat): Walk
    requires j < JOINTS == |raw| && Covers(w, j)
  {
    var parent := Parent(j);
    var valid := IsValid(raw[j].position);
    var point := if valid then raw[j].position
                 else if 0 <= parent then w.filtered[parent] else Point(0.0, 0.0, 2.0);
    var state := if valid then raw[j].state else Inferred;
    var bone :=
      if 0 <= parent && state == Tracked && w.states[parent] == Tracked
         && IsBone(len(Minus(point, w.filtered[parent])))
      then len(Minus(point, w.filtered[parent])) else 0.0;
    Extend(w, point, bone, state)
  }

  function ResetWalk(len: LengthFunction, raw: seq<Joint>, n: nat): (w: Walk)
    requires n <= JOINTS == |raw|
    ensures Covers(w, n)
  {
    if n == 0 then Walk([], [], []) else ResetJoint(len, raw, ResetWalk(len, raw, n - 1), n - 1)
  }

  /** What a frame brings: the positions and bones before it, the raw joints, dt. */
  datatype Scene = Scene(previous: seq<Point>, bones: seq<real>, raw: seq<Joint>, dt: real)

  predicate ValidScene(s: Scene) {
    |s.previous| == |s.bones| == |s.raw| == JOINTS && 0.01 <= s.dt <= 0.15
  }

  predicate ReallyTracked(joint: Joint) {
    joint.state == Tracked && IsValid(joint.position)
  }

  /** The previous position carried along with the filtered parent. */
  function Predicted(s: Scene, w: Walk, j: nat): Point
    requires ValidScene(s) && j < JOINTS && Covers(w, j)
  {
    if 0 < j then
      Plus(s.previous[j], Minus(w.filtered[Parent(j)], s.previous[Parent(j)]))
    else s.previous[j]
  }

  /** The measured position under the speed cap, or the prediction. */
  function Candidate(t: Tracking, len: LengthFunction, s: Scene, w: Walk, j: nat): Point
    requires ValidScene(s) && j < JOINTS && Covers(w, j)
  {
    var predicted := Predicted(s, w, j);
    if ReallyTracked(s.raw[j]) then
      LimitDelta(len, predicted, s.raw[j].position,
                 Times(Times(t.maxJointSpeed, SpeedScale(j)), s.dt))
    else predicted
  }

  /** Push the segment back into the tolerance around a known bone length. */
  function ClampSegment(t: Tracking, len: LengthFunction, parent: Point, candidate: Point, expected: real): Point
    requires ValidTracking(t)
  {
    var segment := Minus(candidate, parent);
    var length := len(segment);
    if KNOWN_BONE < expected && NEGLIGIBLE < length then
      ToleranceOrder(expected, t.boneTolerance);
      var clamped := Clamp(length, Times(expected, 1.0 - t.boneTolerance),
                           Times(expected, 1.0 + t.boneTolerance));
      if NEGLIGIBLE < Abs(clamped - length) then Plus(parent, Scale(segment, clamped / length))
      else candidate
    else candidate
  }

  lemma ToleranceOrder(expected: real, tolerance: real)
    requires 0.0 <= expected && 0.0 <= tolerance <= 1.0
    ensures 0.0 <= Times(expected, 1.0 - tolerance) <= Times(expected, 1.0 + tolerance)
  {
    assert Times(expected, 1.0 + tolerance) == Times(expected, 1.0 - tolerance) + 2.0 * Times(expected, tolerance);
    TimesNonNegative(expected, tolerance);
    TimesNonNegative(expected, 1.0 - tolerance);
  }

  /** The new learned length: only fully tracked raw endpoints teach, and only inside
      the tolerance once a length is known. */
  function LearnBone(t: Tracking, len: LengthFunction, s: Scene, j: nat): real
    requires ValidScene(s) && 0 < j < JOINTS
  {
    var learned := s.bones[j];
    var parent := s.raw[Parent(j)];
    var length := len(Minus(s.raw[j].position, parent.position));
    if !(ReallyTracked(s.raw[j]) && ReallyTracked(parent) && IsBone(length)) then learned
    else if learned <= KNOWN_BONE then length
    else if Times(learned, 1.0 - t.boneTolerance) <= length <= Times(learned, 1.0 + t.boneTolerance) then
      learned * 0.99 + length * 0.01
    else learned
  }

  function FilterJoint(t: Tracking, len: LengthFunction, s: Scene, w: Walk, j: nat): Walk
    requires ValidTracking(t) && ValidScene(s) && j < JOINTS && Covers(w, j)
  {
    var candidate := Candidate(t, len, s, w, j);
    var state := if ReallyTracked(s.raw[j]) then s.raw[j].state else Inferred;
    if j == 0 then Extend(w, candidate, s.bones[0], state)
    else
      Extend(w, ClampSegment(t, len, w.filtered[Parent(j)], candidate, s.bones[j]),
             LearnBone(t, len, s, j), state)
  }

  function FilterWalk(t: Tracking, len: LengthFunction, s: Scene, n: nat): (w: Walk)
    requires ValidTracking(t) && ValidScene(s) && n <= JOINTS
    ensures Covers(w, n)
  {
    if n == 0 then Walk([], [], []) else FilterJoint(t, len, s, FilterWalk(t, len, s, n - 1), n - 1)
  }

  // ------------------------------------------------------------- the filter

  datatype Filter = Filter(ready: bool, trackingId: nat, tick: nat, filtered: seq<Point>, learned: seq<real>)

  predicate ValidFilter(f: Filter) {
    |f.filtered| == |f.learned| == JOINTS
  }

  predicate MustReset(f: Filter, trackingId: nat, now: nat) {
    !f.ready || f.trackingId != trackingId || f.tick == 0 || now - f.tick > 1000
  }

  function Stabilized(t: Tracking, len: LengthFunction, f: Filter, trackingId: nat,
                      raw: seq<Joint>, now: nat): (r: Walk)
    requires ValidTracking(t) && ValidFilter(f) && |raw| == JOINTS
    ensures Covers(r, JOINTS)
  {
    if MustReset(f, trackingId, now) then ResetWalk(len, raw, JOINTS)
    else FilterWalk(t, len, Scene(f.filtered, f.learned, raw, ElapsedSeconds(f.tick, now)), JOINTS)
  }

  function Next(t: Tracking, len: LengthFunction, f: Filter, trackingId: nat,
                raw: seq<Joint>, now: nat): (r: Filter)
    requires ValidTracking(t) && ValidFilter(f) && |raw| == JOINTS
    ensures ValidFilter(r)
  {
    var w := Stabilized(t, len, f, trackingId, raw, now);
    Filter(true, trackingId, now, w.filtered, w.learned)
  }

  // ------------------------------------------------ the code that updates in place

  class SkeletonData {
    const trackingId: nat
    const positions: array<Point>
    const states: array<JointState>

    ghost predicate Valid()
      reads this
    {
      positions.Length == states.Length == JOINTS
    }

    ghost function Joints(): (r: seq<Joint>)
      reads this, positions, states
      requires Valid()
      ensures |r| == JOINTS
    {
      seq(JOINTS, j requires 0 <= j < JOINTS && Valid() reads this, positions, states =>
        Joint(positions[j], states[j]))
    }

    constructor (id: nat, joints: seq<Joint>)
      requires |joints| == JOINTS
      ensures Valid() && trackingId == id && Joints() == joints
    {
      trackingId := id;
      positions := new Point[JOINTS](j requires 0 <= j < |joints| => joints[j].position);
      states := new JointState[JOINTS](j requires 0 <= j < |joints| => joints[j].state);
    }
  }

  class JointFilter {
    const tracking: Tracking
    const filtered: array<Point>
    const learned: array<real>
    var ready: bool
    var trackingId: nat
    var tick: nat

    ghost predicate Valid()
      reads this
    {
      ValidTracking(tracking) && filtered.Length == learned.Length == JOINTS
    }

    ghost function Value(): Filter
      reads this, filtered, learned
    {
      Filter(ready, trackingId, tick, filtered[..], learned[..])
    }

    constructor (t: Tracking)
      requires ValidTracking(t)
      ensures Valid() && tracking == t && !ready
      ensures forall j | 0 <= j < JOINTS :: learned[j] == 0.0
    {
      tracking := t;
      filtered := new Point[JOINTS](_ => Point(0.0, 0.0, 0.0));
      learned := new real[JOINTS](_ => 0.0);
      ready, trackingId, tick := false, 0, 0;
    }

    /** The first j joints of the filter and of the skeleton are those of the walk. */
    ghost predicate Agrees(sk: SkeletonData, w: Walk, j: nat)
      reads this, filtered, learned, sk, sk.positions, sk.states
    {
      && Valid() && sk.Valid() && j <= JOINTS && Covers(w, j)
      && filtered[..j] == w.filtered && sk.positions[..j] == w.filtered
      && sk.states[..j] == w.states
    }

    method ResetJointFilter(len: LengthFunction, sk: SkeletonData, now: nat)
      requires Valid() && sk.Valid() && filtered != sk.positions
      modifies this, filtered, learned, sk.positions, sk.states
      ensures Valid() && sk.Valid()
      ensures var w := ResetWalk(len, old(sk.Joints()), JOINTS);
        && Value() == Filter(true, sk.trackingId, now, w.filtered, w.learned)
        && sk.positions[..] == w.filtered && sk.states[..] == w.states
    {
      ghost var raw := sk.Joints();
      for k := 0 to JOINTS
        invariant Valid() && sk.Valid() && sk.Joints() == raw
        invariant forall i | 0 <= i < k :: learned[i] == 0.0
      {
        learned[k] := 0.0;
      }
      for j := 0 to JOINTS
        invariant Agrees(sk, ResetWalk(len, raw, j), j)
        invariant learned[..j] == ResetWalk(len, raw, j).learned
        invariant forall i | j <= i < JOINTS ::
          learned[i] == 0.0 && sk.positions[i] == raw[i].position && sk.states[i] == raw[i].state
      {
        hide ResetJoint;
        ResetOneJoint(len, sk, raw, j);
      }
      ready := true;
      trackingId := sk.trackingId;
      tick := now;
      assert filtered[..] == filtered[..JOINTS] && learned[..] == learned[..JOINTS];
      assert sk.positions[..] == sk.positions[..JOINTS] && sk.states[..] == sk.states[..JOINTS];
    }

    /** The body of the reset loop. */
    method ResetOneJoint(len: LengthFunction, sk: SkeletonData, ghost raw: seq<Joint>, j: nat)
      requires Valid() && sk.Valid() && filtered != sk.positions && j < JOINTS == |raw|
      requires Agrees(sk, ResetWalk(len, raw, j), j)
      requires learned[..j] == ResetWalk(len, raw, j).learned
      requires learned[j] == 0.0 && sk.positions[j] == raw[j].position && sk.states[j] == raw[j].state
      modifies filtered, learned, sk.positions, sk.states
      ensures Agrees(sk, ResetWalk(len, raw, j + 1), j + 1)
      ensures learned[..j + 1] == ResetWalk(len, raw, j + 1).learned
      ensures forall i | j < i < JOINTS ::
        && learned[i] == old(learned[i]) && sk.positions[i] == old(sk.positions[i])
        && sk.states[i] == old(sk.states[i])
    {
      hide Minus, IsValid, Parent, IsBone;
      ghost var w := ResetWalk(len, raw, j);
      assert ResetWalk(len, raw, j + 1) == ResetJoint(len, raw, w, j);
      hide ResetWalk;
      var parent := Parent(j);
      var point := sk.positions[j];
      assert parent >= 0 ==> filtered[parent] == w.filtered[parent] && sk.states[parent] == w.states[parent];
      if !IsValid(point) {
        point := if parent >= 0 then filtered[parent] else Point(0.0, 0.0, 2.0);
        sk.positions[j] := point;
        sk.states[j] := Inferred;
      }
      filtered[j] := point;
      if parent >= 0 && sk.states[j] == Tracked && sk.states[parent] == Tracked {
        var length := len(Minus(point, filtered[parent]));
        if IsBone(length) {
          learned[j] := length;
        }
      }
      assert filtered[..j + 1] == w.filtered + [point];
      assert sk.positions[..j + 1] == w.filtered + [point];
      assert learned[..j + 1] == w.learned + [learned[j]];
      assert sk.states[..j + 1] == w.states + [sk.states[j]];
    }

    method StabilizeSkeleton(len: LengthFunction, sk: SkeletonData, now: nat)
      requires Valid() && sk.Valid() && filtered != sk.positions && tick <= now
      modifies this, filtered, learned, sk.positions, sk.states
      ensures Valid() && sk.Valid()
      ensures var w := Stabilized(tracking, len, old(Value()), sk.trackingId, old(sk.Joints()), now);
        && Value() == Next(tracking, len, old(Value()), sk.trackingId, old(sk.Joints()), now)
        && sk.positions[..] == w.filtered && sk.states[..] == w.states
    {
      if !ready || trackingId != sk.trackingId || tick == 0 || now - tick > 1000 {
        ResetJointFilter(len, sk, now);
        return;
      }
      hide FilterJoint;
      var previous := filtered[..];
      var raw := seq(JOINTS, j requires 0 <= j < JOINTS && sk.Valid() reads sk, sk.positions, sk.states =>
        Joint(sk.positions[j], sk.states[j]));
      assert raw == sk.Joints();
      var scene := Scene(previous, learned[..], raw, ElapsedSeconds(tick, now));
      for j := 0 to JOINTS
        invariant Agrees(sk, FilterWalk(tracking, len, scene, j), j)
        invariant learned[..j] == FilterWalk(tracking, len, scene, j).learned
        invariant ready && trackingId == sk.trackingId
        invariant forall i | j <= i < JOINTS ::
          learned[i] == scene.bones[i] && sk.states[i] == raw[i].state
      {
        FilterOneJoint(len, sk, scene, j);
      }
      tick := now;
      assert filtered[..] == filtered[..JOINTS] && learned[..] == learned[..JOINTS];
      assert sk.positions[..] == sk.positions[..JOINTS] && sk.states[..] == sk.states[..JOINTS];
    }

    /** The body of the walk over one joint. */
    method FilterOneJoint(len: LengthFunction, sk: SkeletonData, s: Scene, j: nat)
      requires Valid() && sk.Valid() && filtered != sk.positions && j < JOINTS && ValidScene(s)
      requires Agrees(sk, FilterWalk(tracking, len, s, j), j)
      requires learned[..j] == FilterWalk(tracking, len, s, j).learned
      requires learned[j] == s.bones[j] && sk.states[j] == s.raw[j].state
      modifies filtered, learned, sk.positions, sk.states
      ensures Agrees(sk, FilterWalk(tracking, len, s, j + 1), j + 1)
      ensures learned[..j + 1] == FilterWalk(tracking, len, s, j + 1).learned
      ensures forall i | j < i < JOINTS ::
        learned[i] == old(learned[i]) && sk.states[i] == old(sk.states[i])
    {
      hide Minus, Plus, IsValid, Parent, LimitDelta, ClampSegment, LearnBone, SpeedScale;
      ghost var w := FilterWalk(tracking, len, s, j);
      assert FilterWalk(tracking, len, s, j + 1) == FilterJoint(tracking, len, s, w, j);
      hide FilterWalk;
      var parent := Parent(j);
      assert parent >= 0 ==> filtered[parent] == w.filtered[parent];
      var reallyTracked := s.raw[j].state == Tracked && IsValid(s.raw[j].position);
      var predicted := s.previous[j];
      if parent >= 0 {
        predicted := Plus(s.previous[j], Minus(filtered[parent], s.previous[parent]));
      }
      var candidate := predicted;
      if reallyTracked {
        candidate := LimitDelta(len, predicted, s.raw[j].position,
                                Times(Times(tracking.maxJointSpeed, SpeedScale(j)), s.dt));
      } else {
        sk.states[j] := Inferred;
      }
      assert candidate == Candidate(tracking, len, s, w, j);
      if parent >= 0 {
        candidate := ClampSegment(tracking, len, filtered[parent], candidate, learned[j]);
        learned[j] := LearnBone(tracking, len, s, j);
      }
      filtered[j] := candidate;
      sk.positions[j] := candidate;
      assert filtered[..j + 1] == w.filtered + [candidate];
      assert sk.positions[..j + 1] == w.filtered + [candidate];
      assert learned[..j + 1] == w.learned + [learned[j]];
      assert sk.states[..j + 1] == w.states + [sk.states[j]];
    }
  }
}
