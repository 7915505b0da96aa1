/** predict_body: extrapolation of the latest measured body to the callback time.
    Coordinates and times are reals; the Euclidean length is a parameter. */
module Prediction {
  import opened Basics
  import opened PointCloud
  import opened Length

  const JOINTS := 30
  const DEFAULT_HORIZON_MS := 100.0

  const HEAD := 3
  const HAND_LEFT := 7
  const HAND_RIGHT := 11
  const ANKLE_LEFT := 14
  const ANKLE_RIGHT := 18

  /** States: 0 not tracked, 1 inferred, 2 tracked. */
  datatype Joint = Joint(position: Point, state: int)
  datatype Body = Body(state: int, joints: seq<Joint>)

  predicate ValidBody(b: Body) {
    |b.joints| == JOINTS
  }

  /** Elbows, wrists, hands, knees, ankles, feet, hand tips and thumbs. */
  function SpeedLimit(joint: nat): (limit: real)
    ensures 0.0 < limit <= 5.0
  {
    if joint in {5, 6, 7, 9, 10, 11, 13, 14, 15, 17, 18, 19, 21, 22, 23, 24} then 5.0 else 3.0
  }

  function JitterRadius(joint: nat): (r: real)
    ensures 0.0 < r
  {
    if joint in {6, 7, 10, 11, 14, 15, 18, 19, 21, 22, 23, 24} then 0.012 else 0.008
  }

  /** Points that the model synthesises from one end point follow that point. */
  function Anchor(joint: nat): (a: nat)
    requires joint < JOINTS
    ensures a < JOINTS
  {
    if joint in {6, 7, 21, 22} then HAND_LEFT
    else if joint in {10, 11, 23, 24} then HAND_RIGHT
    else if joint in {14, 15} then ANKLE_LEFT
    else if joint in {18, 19} then ANKLE_RIGHT
    else if joint in {3, 25, 26, 27, 28, 29} then HEAD
    else joint
  }

  lemma AnchorsAnchorThemselves(joint: nat)
    requires joint < JOINTS
    ensures Anchor(Anchor(joint)) == Anchor(joint)
  {
  }

  /** The time to extrapolate over, in milliseconds. */
  function Horizon(latestMs: real, callbackMs: real, additionalMs: real, maximumMs: real): (h: real)
    ensures 0.0 <= h <= MaxReal(0.0, maximumMs)
  {
    MinReal(MaxReal(0.0, callbackMs - latestMs) + MaxReal(0.0, additionalMs), MaxReal(0.0, maximumMs))
  }

  predicate SampleIsUsable(sampleMs: real) {
    15.0 <= sampleMs <= 250.0
  }

  /** Fades prediction in between one and two jitter radii. */
  function Weight(magnitude: real, radius: real): (w: real)
    requires 0.0 < radius < magnitude
    ensures 0.0 <= w <= 1.0
  {
    Requotient(magnitude - radius, radius);
    MinReal(1.0, (magnitude - radius) / radius)
  }

  /** The extrapolated motion of an anchor that moved by d in s seconds, h seconds on. */
  function Motion(len: LengthFunction, d: Point, anchor: nat, s: real, h: real): Point
    requires 0.0 < s
  {
    var radius := JitterRadius(anchor);
    if len(d) <= radius then Point(0.0, 0.0, 0.0)
    else
      var weight := Weight(len(d), radius);
      var velocity := Scale(Scale(d, 1.0 / s), weight);
      var magnitude := Times(Times(len(d), 1.0 / s), weight);
      var limit := SpeedLimit(anchor);
      var capped := if limit < magnitude then Scale(velocity, limit / magnitude) else velocity;
      Scale(capped, h)
  }

  predicate Moves(previous: Body, latest: Body, joint: nat)
    requires ValidBody(previous) && ValidBody(latest) && joint < JOINTS
  {
    && previous.joints[joint].state != 0 && latest.joints[joint].state != 0
    && previous.joints[Anchor(joint)].state != 0 && latest.joints[Anchor(joint)].state != 0
  }

  function Displacement(previous: Body, latest: Body, joint: nat): Point
    requires ValidBody(previous) && ValidBody(latest) && joint < JOINTS
  {
    Minus(latest.joints[Anchor(joint)].position, previous.joints[Anchor(joint)].position)
  }

  function PredictJoint(len: LengthFunction, previous: Body, latest: Body, s: real, h: real, joint: nat)
      : Joint
    requires ValidBody(previous) && ValidBody(latest) && joint < JOINTS && 0.0 < s
  {
    var measured := latest.joints[joint];
    if !Moves(previous, latest, joint) then measured
    else Joint(Plus(measured.position, Motion(len, Displacement(previous, latest, joint), Anchor(joint), s, h)),
               measured.state)
  }

  /** Both sample times, the callback time and the two horizon parameters, in milliseconds. */
  datatype Clock = Clock(previousMs: real, latestMs: real, callbackMs: real, additionalMs: real,
                          maximumMs: real)

  function Predicted(len: LengthFunction, previous: Body, latest: Body, t: Clock): (r: Body)
    requires ValidBody(previous) && ValidBody(latest)
    ensures ValidBody(r) && r.state == latest.state
    ensures forall j | 0 <= j < JOINTS :: r.joints[j].state == latest.joints[j].state
  {
    var sampleMs := t.latestMs - t.previousMs;
    var h := Horizon(t.latestMs, t.callbackMs, t.additionalMs, t.maximumMs);
    if !SampleIsUsable(sampleMs) || h <= 0.0 then latest
    else
      Body(latest.state, seq(JOINTS, j requires 0 <= j < JOINTS =>
        PredictJoint(len, previous, latest, sampleMs / 1000.0, h / 1000.0, j)))
  }

  method PredictBody(len: LengthFunction, previous: Body, latest: Body, t: Clock) returns (output: Body)
    requires ValidBody(previous) && ValidBody(latest)
    ensures output == Predicted(len, previous, latest, t)
  {
    hide Motion;
    output := latest;
    var sampleMs := t.latestMs - t.previousMs;
    if sampleMs < 15.0 || 250.0 < sampleMs {
      return;
    }
    var age := MaxReal(0.0, t.callbackMs - t.latestMs);
    var horizon := MinReal(age + MaxReal(0.0, t.additionalMs), MaxReal(0.0, t.maximumMs));
    if horizon <= 0.0 {
      return;
    }
    var s, h := sampleMs / 1000.0, horizon / 1000.0;
    for joint := 0 to JOINTS
      invariant output.state == latest.state && |output.joints| == JOINTS
      invariant forall j | 0 <= j < joint ::
        output.joints[j] == PredictJoint(len, previous, latest, s, h, j)
      invariant forall j | joint <= j < JOINTS :: output.joints[j] == latest.joints[j]
    {
      var anchor := Anchor(joint);
      var predicted := output.joints[joint];
      if previous.joints[joint].state == 0 || predicted.state == 0 ||
         previous.joints[anchor].state == 0 || latest.joints[anchor].state == 0 {
        continue;
      }
      var d := Minus(latest.joints[anchor].position, previous.joints[anchor].position);
      var motion := Motion(len, d, anchor, s, h);
      output := output.(joints := output.joints[joint :=
        Joint(Plus(predicted.position, motion), predicted.state)]);
    }
  }

  // -------------------------------------------------------------- how far, which way

  lemma ProductAtMost(a: real, b: real, c: real, d: real)
    requires 0.0 <= a <= b && 0.0 <= c <= d
    ensures 0.0 <= Times(a, c) <= Times(b, d)
  {
    assert Times(b - a, c) == Times(b, c) - Times(a, c);
    assert Times(b, d - c) == Times(b, d) - Times(b, c);
    TimesNonNegative(a, c);
    TimesNonNegative(b - a, c);
    TimesNonNegative(b, d - c);
  }

  /** No joint is moved faster than its speed limit. */
  lemma MotionIsCapped(len: LengthFunction, d: Point, anchor: nat, s: real, h: real)
    requires IsLength(len) && 0.0 < s && 0.0 <= h
    ensures len(Motion(len, d, anchor, s, h)) <= Times(SpeedLimit(anchor), h)
  {
    hide IsLength, Weight, Scale, Times;
    var radius := JitterRadius(anchor);
    if len(d) <= radius {
      LengthOfZero(len);
      TimesNonNegative(SpeedLimit(anchor), h);
    } else {
      LengthIsNonNegative(len, d);
      Reciprocal(s);
      var weight, limit := Weight(len(d), radius), SpeedLimit(anchor);
      var velocity := Scale(Scale(d, 1.0 / s), weight);
      LengthOfScale(len, d, 1.0 / s);
      LengthOfScale(len, Scale(d, 1.0 / s), weight);
      var magnitude := Times(Times(len(d), 1.0 / s), weight);
      assert len(velocity) == magnitude;
      LengthIsNonNegative(len, velocity);
      var capped := if limit < magnitude then Scale(velocity, limit / magnitude) else velocity;
      if limit < magnitude {
        LengthOfRescale(len, velocity, limit);
      }
      assert len(capped) <= limit;
      LengthIsNonNegative(len, capped);
      LengthOfScale(len, capped, h);
      ProductAtMost(len(capped), limit, h, h);
    }
  }

  lemma LengthOfZero(len: LengthFunction)
    requires IsLength(len)
    ensures len(Point(0.0, 0.0, 0.0)) == 0.0
  {
    assert SquareOf(len(Point(0.0, 0.0, 0.0))) == Squared(Point(0.0, 0.0, 0.0));
  }

  lemma LengthIsNonNegative(len: LengthFunction, v: Point)
    requires IsLength(len)
    ensures 0.0 <= len(v)
  {
  }

  lemma Reciprocal(s: real)
    requires 0.0 < s
    ensures 0.0 < 1.0 / s
  {
  }

  /** With the default horizon every predicted joint stays within half a metre of its
      measurement, and untracked ones do not move at all. */
  lemma PredictionStaysNear(len: LengthFunction, previous: Body, latest: Body, t: Clock, joint: nat)
    requires IsLength(len) && ValidBody(previous) && ValidBody(latest) && joint < JOINTS
    requires t.maximumMs <= DEFAULT_HORIZON_MS
    ensures var p := Predicted(len, previous, latest, t).joints[joint];
      && len(Minus(p.position, latest.joints[joint].position)) <= 0.5
      && (latest.joints[joint].state == 0 ==> p == latest.joints[joint])
  {
    hide IsLength, Motion;
    var out := Predicted(len, previous, latest, t);
    var h := Horizon(t.latestMs, t.callbackMs, t.additionalMs, t.maximumMs);
    LengthOfZero(len);
    if SampleIsUsable(t.latestMs - t.previousMs) && 0.0 < h && Moves(previous, latest, joint) {
      var s := (t.latestMs - t.previousMs) / 1000.0;
      var d := Displacement(previous, latest, joint);
      var motion := Motion(len, d, Anchor(joint), s, h / 1000.0);
      PlusMinus(latest.joints[joint].position, motion);
      MotionIsCapped(len, d, Anchor(joint), s, h / 1000.0);
      ProductAtMost(SpeedLimit(Anchor(joint)), 5.0, h / 1000.0, 0.1);
      assert Times(5.0, 0.1) == 0.5;
    } else {
      assert out.joints[joint] == latest.joints[joint];
    }
  }

  /** A joint that moves is shifted by the very vector that shifts its anchor joint. */
  lemma JointFollowsAnchor(len: LengthFunction, previous: Body, latest: Body, t: Clock, joint: nat)
    requires ValidBody(previous) && ValidBody(latest) && joint < JOINTS && Moves(previous, latest, joint)
    ensures var out, anchor := Predicted(len, previous, latest, t), Anchor(joint);
      Minus(out.joints[joint].position, latest.joints[joint].position)
        == Minus(out.joints[anchor].position, latest.joints[anchor].position)
  {
    hide Motion;
    var anchor := Anchor(joint);
    AnchorsAnchorThemselves(joint);
    assert Moves(previous, latest, anchor);
    var h := Horizon(t.latestMs, t.callbackMs, t.additionalMs, t.maximumMs);
    if SampleIsUsable(t.latestMs - t.previousMs) && 0.0 < h {
      var s := (t.latestMs - t.previousMs) / 1000.0;
      var motion := Motion(len, Displacement(previous, latest, anchor), anchor, s, h / 1000.0);
      PlusMinus(latest.joints[joint].position, motion);
      PlusMinus(latest.joints[anchor].position, motion);
    }
  }

  /** So joints that share an anchor and may move are shifted by one common vector, and the
      measured orientation of a hand, a foot or the face is kept. */
  lemma AnchorGroupIsRigid(len: LengthFunction, previous: Body, latest: Body, t: Clock, a: nat, b: nat)
    requires ValidBody(previous) && ValidBody(latest) && a < JOINTS && b < JOINTS
    requires Anchor(a) == Anchor(b) && Moves(previous, latest, a) && Moves(previous, latest, b)
    ensures var out := Predicted(len, previous, latest, t);
      && Minus(out.joints[a].position, latest.joints[a].position)
         == Minus(out.joints[b].position, latest.joints[b].position)
      && Minus(out.joints[a].position, out.joints[b].position)
         == Minus(latest.joints[a].position, latest.joints[b].position)
  {
    hide Predicted;
    JointFollowsAnchor(len, previous, latest, t, a);
    JointFollowsAnchor(len, previous, latest, t, b);
  }

  lemma ScaleTwice(v: Point, j: real, k: real)
    ensures Scale(Scale(v, j), k) == Scale(v, Times(j, k))
  {
    TimesAssociate(v.x, j, k);
    TimesAssociate(v.y, j, k);
    TimesAssociate(v.z, j, k);
  }

  lemma TimesAssociate(a: real, b: real, c: real)
    ensures Times(Times(a, b), c) == Times(a, Times(b, c))
  {
  }

  /** A prediction continues the measured motion: it points the way the anchor moved, and never
      goes faster than the anchor did. */
  lemma MotionFollowsMeasurement(len: LengthFunction, d: Point, anchor: nat, s: real, h: real)
    returns (k: real)
    requires IsLength(len) && 0.0 < s && 0.0 <= h
    ensures Motion(len, d, anchor, s, h) == Scale(d, k)
    ensures 0.0 <= k && Times(k, s) <= h
  {
    hide IsLength, Weight, Scale, Times;
    var radius := JitterRadius(anchor);
    if len(d) <= radius {
      k := 0.0;
      ScaleByZero(d);
      assert Times(0.0, s) == 0.0;
    } else {
      var weight, limit := Weight(len(d), radius), SpeedLimit(anchor);
      var velocity := Scale(Scale(d, 1.0 / s), weight);
      var magnitude := Times(Times(len(d), 1.0 / s), weight);
      Reciprocal(s);
      ScaleTwice(d, 1.0 / s, weight);
      ProductAtMost(1.0 / s, 1.0 / s, weight, 1.0);
      var f := Times(1.0 / s, weight);
      var cap := if limit < magnitude then limit / magnitude else 1.0;
      if limit < magnitude {
        FractionAtMostOne(limit, magnitude);
      }
      ScaleByOne(velocity);
      var capped := Scale(velocity, cap);
      ScaleTwice(d, f, cap);
      ScaleTwice(d, Times(f, cap), h);
      k := Times(Times(f, cap), h);
      ByOne(1.0 / s);
      ProductAtMost(f, 1.0 / s, cap, 1.0);
      ProductAtMost(Times(f, cap), 1.0 / s, h, h);
      ProductAtMost(k, Times(1.0 / s, h), s, s);
      ReciprocalCancels(s, h);
    }
  }

  /** From two jitter radii on, and below the speed limit, the prediction is exactly the
      continued motion. */
  lemma ClearMotionIsContinued(len: LengthFunction, d: Point, anchor: nat, s: real, h: real)
    requires 0.0 < s && 2.0 * JitterRadius(anchor) <= len(d)
    requires Times(len(d), 1.0 / s) <= SpeedLimit(anchor)
    ensures Motion(len, d, anchor, s, h) == Scale(d, h / s)
  {
    hide Scale, Times, SpeedLimit;
    var radius := JitterRadius(anchor);
    FractionAtLeastOne(len(d) - radius, radius);
    assert Weight(len(d), radius) == 1.0;
    ScaleByOne(Scale(d, 1.0 / s));
    ByOne(Times(len(d), 1.0 / s));
    ScaleTwice(d, 1.0 / s, h);
    Share(h, s);
  }

  /** Jitter is not amplified: within the jitter radius nothing moves, and beyond it the
      prediction grows from zero. */
  lemma JitterFadesIn(len: LengthFunction, d: Point, anchor: nat, s: real, h: real)
    requires IsLength(len) && 0.0 < s && 0.0 <= h
    ensures var radius := JitterRadius(anchor);
      if len(d) <= radius then Motion(len, d, anchor, s, h) == Point(0.0, 0.0, 0.0)
      else len(Motion(len, d, anchor, s, h)) <=
           Times(Times(Times(len(d), 1.0 / s), (len(d) - radius) / radius), h)
  {
    hide IsLength, Scale, Times;
    var radius := JitterRadius(anchor);
    if radius < len(d) {
      Reciprocal(s);
      LengthIsNonNegative(len, d);
      var weight, limit := Weight(len(d), radius), SpeedLimit(anchor);
      var velocity := Scale(Scale(d, 1.0 / s), weight);
      LengthOfScale(len, d, 1.0 / s);
      LengthOfScale(len, Scale(d, 1.0 / s), weight);
      LengthIsNonNegative(len, Scale(d, 1.0 / s));
      LengthIsNonNegative(len, velocity);
      var capped := if limit < len(velocity) then Scale(velocity, limit / len(velocity)) else velocity;
      if limit < len(velocity) {
        LengthOfRescale(len, velocity, limit);
      }
      LengthIsNonNegative(len, capped);
      LengthOfScale(len, capped, h);
      var speed := Times(len(d), 1.0 / s);
      ProductAtMost(speed, speed, weight, (len(d) - radius) / radius);
      ProductAtMost(len(capped), Times(speed, (len(d) - radius) / radius), h, h);
    }
  }

  lemma FractionAtLeastOne(a: real, b: real)
    requires 0.0 < b <= a
    ensures 1.0 <= a / b
  {
    var q := a / b;
    assert q * b == a;
  }

  lemma Share(h: real, s: real)
    requires 0.0 < s
    ensures Times(1.0 / s, h) == h / s
  {
  }

  lemma ScaleByZero(v: Point)
    ensures Scale(v, 0.0) == Point(0.0, 0.0, 0.0)
  {
  }

  lemma ByOne(a: real)
    ensures Times(a, 1.0) == a
  {
  }

  lemma ScaleByOne(v: Point)
    ensures Scale(v, 1.0) == v
  {
  }

  lemma FractionAtMostOne(a: real, b: real)
    requires 0.0 < a < b
    ensures 0.0 <= a / b <= 1.0
  {
    var q := a / b;
    assert q * b == a;
  }

  lemma ReciprocalCancels(s: real, h: real)
    requires 0.0 < s
    ensures Times(Times(1.0 / s, h), s) == h
  {
    var r := 1.0 / s;
    assert r * s == 1.0;
    assert (r * h) * s == (r * s) * h;
  }

  // ---------------------------------------------------------- exactly how far

  /** The end point whose motion a joint follows: hands, feet and head gather their parts. */
  predicate Follows(joint: nat, a: nat) {
    if joint in {6, 7, 21, 22} then a == 7
    else if joint in {10, 11, 23, 24} then a == 11
    else if joint in {14, 15} then a == 14
    else if joint in {18, 19} then a == 18
    else if joint in {3, 25, 26, 27, 28, 29} then a == 3
    else a == joint
  }

  /** Hands and feet jitter more than the other end points, ... */
  function Jitter(a: nat): real {
    if a in {7, 11, 14, 18} then 0.012 else 0.008
  }

  /** ... and move faster, like elbows and knees. */
  function Fastest(a: nat): real {
    if a in {5, 7, 9, 11, 13, 14, 17, 18} then 5.0 else 3.0
  }

  lemma EndPoints(joint: nat, a: nat)
    requires joint < JOINTS && Follows(joint, a)
    ensures a == Anchor(joint) && JitterRadius(a) == Jitter(a) && SpeedLimit(a) == Fastest(a)
  {
  }

  /** A measured displacement d of end point a over s seconds is continued for h seconds by k times
      d: not at all within the jitter radius, at the measured speed from twice that radius on, faded
      in between, and never faster than the limit. */
  ghost predicate Continues(len: LengthFunction, d: Point, a: nat, s: real, h: real, k: real)
    requires 0.0 < s
  {
    var m, radius := len(d), Jitter(a);
    if m <= radius then k == 0.0
    else
      var weight := if 2.0 * radius <= m then 1.0 else (m - radius) / radius;
      var speed := Times(m / s, weight);
      if speed <= Fastest(a) then Times(k, s) == Times(h, weight)
      else Times(k, m) == Times(Fastest(a), h)
  }

  lemma MotionContinues(len: LengthFunction, d: Point, a: nat, s: real, h: real) returns (k: real)
    requires IsLength(len) && 0.0 < s && 0.0 <= h
    requires JitterRadius(a) == Jitter(a) && SpeedLimit(a) == Fastest(a)
    ensures Motion(len, d, a, s, h) == Scale(d, k) && Continues(len, d, a, s, h, k)
  {
    hide IsLength, Scale, Times, Weight;
    var radius, m := Jitter(a), len(d);
    if m <= radius {
      k := 0.0;
      ScaleByZero(d);
    } else {
      var weight := Weight(m, radius);
      WeightIs(m, radius);
      Reciprocal(s);
      Share(m, s);
      TimesCommute(m, 1.0 / s);
      var f, speed := Times(1.0 / s, weight), Times(m / s, weight);
      ScaleTwice(d, 1.0 / s, weight);
      var cap := if Fastest(a) < speed then Fastest(a) / speed else 1.0;
      ScaleByOne(Scale(d, f));
      ScaleTwice(d, f, cap);
      ScaleTwice(d, Times(f, cap), h);
      k := Times(Times(f, cap), h);
      if Fastest(a) < speed {
        CappedFactor(m, s, weight, Fastest(a), h);
      } else {
        FreeFactor(s, weight, h);
      }
    }
  }

  lemma WeightIs(m: real, radius: real)
    requires 0.0 < radius < m
    ensures Weight(m, radius) == if 2.0 * radius <= m then 1.0 else (m - radius) / radius
  {
    if 2.0 * radius <= m {
      FractionAtLeastOne(m - radius, radius);
    } else {
      FractionAtMostOne(m - radius, radius);
    }
  }

  lemma TimesCommute(a: real, b: real)
    ensures Times(a, b) == Times(b, a)
  {
  }

  lemma FreeFactor(s: real, weight: real, h: real)
    requires 0.0 < s
    ensures Times(Times(Times(Times(1.0 / s, weight), 1.0), h), s) == Times(h, weight)
  {
    var r := 1.0 / s;
    assert r * s == 1.0;
    assert ((r * weight) * h) * s == (r * s) * (h * weight);
  }

  lemma CappedFactor(m: real, s: real, weight: real, limit: real, h: real)
    requires 0.0 < s && 0.0 < limit < Times(m / s, weight)
    ensures Times(Times(Times(Times(1.0 / s, weight), limit / Times(m / s, weight)), h), m) == Times(limit, h)
  {
    var r, speed := 1.0 / s, Times(m / s, weight);
    Share(m, s);
    assert m / s == r * m;
    var q := limit / speed;
    assert q * speed == limit;
    assert speed == (r * m) * weight;
    assert (((r * weight) * q) * h) * m == (((r * m) * weight) * q) * h;
  }

  /** What comes out for each joint.  If the two samples are 15 to 250 ms apart, there is time to
      predict over, and the joint and its end point are known in both, the joint is shifted by the
      continued displacement of the end point, from the previous sample to the latest; in every
      other case it comes out as measured. */
  lemma PredictedIsContinued(len: LengthFunction, previous: Body, latest: Body, t: Clock, joint: nat, a: nat)
    returns (k: real)
    requires IsLength(len) && ValidBody(previous) && ValidBody(latest) && joint < JOINTS && Follows(joint, a)
    ensures a < JOINTS
    ensures var out, sampleMs := Predicted(len, previous, latest, t).joints[joint], t.latestMs - t.previousMs;
      var age, more := t.callbackMs - t.latestMs, t.additionalMs;
      var wanted := (if 0.0 < age then age else 0.0) + (if 0.0 < more then more else 0.0);
      var h := if t.maximumMs < wanted then t.maximumMs else wanted;
      && out.state == latest.joints[joint].state
      && if 15.0 <= sampleMs <= 250.0 && 0.0 < h
            && previous.joints[joint].state != 0 && latest.joints[joint].state != 0
            && previous.joints[a].state != 0 && latest.joints[a].state != 0
         then
           var d := Minus(latest.joints[a].position, previous.joints[a].position);
           && out.position == Plus(latest.joints[joint].position, Scale(d, k))
           && Continues(len, d, a, sampleMs / 1000.0, h / 1000.0, k)
         else out.position == latest.joints[joint].position
  {
    hide IsLength, Motion, Continues, Scale, Plus, Minus;
    EndPoints(joint, a);
    k := 0.0;
    var sampleMs := t.latestMs - t.previousMs;
    var h := Horizon(t.latestMs, t.callbackMs, t.additionalMs, t.maximumMs);
    if SampleIsUsable(sampleMs) && 0.0 < h && Moves(previous, latest, joint) {
      k := MotionContinues(len, Displacement(previous, latest, joint), a, sampleMs / 1000.0, h / 1000.0);
    }
  }
}
