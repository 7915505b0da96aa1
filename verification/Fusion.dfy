/** fuse_views: joining the two cameras' poses joint by joint.  The per-joint confidences and the
    agreement curve are inputs; the Euclidean length is a parameter. */
module Fusion {
  import opened Basics
  import opened Length
  import opened PointCloud

  const JOINTS := 15
  const CORE: seq<nat> := [1, 8, 9, 10]
  const LEAST_WEIGHT := 0.000001
  const ORIGIN := Point(0.0, 0.0, 0.0)

  /** One camera's pose, already moved into the common frame. */
  datatype View = View(valid: bool, joints: seq<Point>, confidence: seq<real>)

  datatype Mode = Primary | Calibrated

  datatype Options = Options(mode: Mode, primary: nat, severe: real, tracked: real, inferred: real)

  datatype Joint = Joint(position: Point, confidence: real)

  ghost predicate ValidView(v: View) {
    && |v.joints| == |v.confidence| == JOINTS
    && forall j | 0 <= j < JOINTS :: 0.0 <= v.confidence[j] <= 1.0
  }

  ghost predicate IsAgreement(agreement: real -> real) {
    forall d: real :: 0.0 <= agreement(d) <= 1.0
  }

  /** np.average over the two views. */
  function Average(p: Point, wp: real, q: Point, wq: real): Point
    requires 0.0 < wp + wq
  {
    Point((Times(p.x, wp) + Times(q.x, wq)) / (wp + wq),
          (Times(p.y, wp) + Times(q.y, wq)) / (wp + wq),
          (Times(p.z, wp) + Times(q.z, wq)) / (wp + wq))
  }

  /** Two valid views of one joint: p and q with their weights. */
  function Blend(len: LengthFunction, agreement: real -> real, severe: real,
                 p: Point, wp: real, q: Point, wq: real): Joint
  {
    var disagreement := len(Minus(p, q));
    if severe <= disagreement then
      if wq <= wp then Joint(p, MaxReal(wp - wq, 0.0)) else Joint(q, MaxReal(wq - wp, 0.0))
    else if wp + wq <= LEAST_WEIGHT then Joint(ORIGIN, 0.0)
    else Joint(Average(p, wp, q, wq), Times(MaxReal(wp, wq), agreement(disagreement)))
  }

  function Only(v: View, scale: real, j: nat): Joint
    requires j < |v.joints| && j < |v.confidence|
  {
    if v.valid then Joint(v.joints[j], Times(v.confidence[j], scale)) else Joint(ORIGIN, 0.0)
  }

  function FuseJoint(len: LengthFunction, agreement: real -> real, o: Options, a: View, b: View, j: nat): Joint
    requires j < |a.joints| && j < |a.confidence| && j < |b.joints| && j < |b.confidence|
  {
    if o.mode.Primary? then
      var first, second := if o.primary == 0 then a else b, if o.primary == 0 then b else a;
      if first.valid then Only(first, 1.0, j) else Only(second, 0.75, j)
    else if a.valid && b.valid then
      Blend(len, agreement, o.severe, a.joints[j], a.confidence[j], b.joints[j], b.confidence[j])
    else if a.valid then Only(a, 0.7, j)
    else Only(b, 0.7, j)
  }

  function TrackingState(o: Options, confidence: real): nat {
    if o.tracked <= confidence then 2 else if o.inferred <= confidence then 1 else 0
  }

  function CountTracked(states: seq<nat>): nat {
    if states == [] then 0
    else CountTracked(states[..|states| - 1]) + if states[|states| - 1] > 0 then 1 else 0
  }

  function States(o: Options, joints: seq<Joint>): (r: seq<nat>)
    ensures |r| == |joints|
  {
    seq(|joints|, j requires 0 <= j < |joints| => TrackingState(o, joints[j].confidence))
  }

  predicate PoseIsValid(states: seq<nat>) {
    (forall k | 0 <= k < |CORE| :: CORE[k] < |states| && 0 < states[CORE[k]]) && 10 <= CountTracked(states)
  }

  method FuseViews(len: LengthFunction, agreement: real -> real, o: Options, a: View, b: View)
    returns (joints: seq<Joint>, valid: bool)
    requires ValidView(a) && ValidView(b)
    ensures |joints| == JOINTS
    ensures forall j | 0 <= j < JOINTS :: joints[j] == FuseJoint(len, agreement, o, a, b, j)
    ensures valid == PoseIsValid(States(o, joints))
  {
    hide PoseIsValid;
    joints := seq(JOINTS, _ => Joint(ORIGIN, 0.0));
    if o.mode.Primary? {
      var first, second := if o.primary == 0 then a else b, if o.primary == 0 then b else a;
      joints := if first.valid then All(first, 1.0) else All(second, 0.75);
    } else if a.valid && b.valid {
      for joint := 0 to JOINTS
        invariant |joints| == JOINTS
        invariant forall j | 0 <= j < joint :: joints[j] == FuseJoint(len, agreement, o, a, b, j)
        invariant forall j | joint <= j < JOINTS :: joints[j] == Joint(ORIGIN, 0.0)
      {
        var wa, wb := a.confidence[joint], b.confidence[joint];
        var disagreement := len(Minus(a.joints[joint], b.joints[joint]));
        if o.severe <= disagreement {
          joints := joints[joint := if wb <= wa then Joint(a.joints[joint], MaxReal(wa - wb, 0.0))
                                    else Joint(b.joints[joint], MaxReal(wb - wa, 0.0))];
          continue;
        }
        if wa + wb <= LEAST_WEIGHT {
          continue;
        }
        joints := joints[joint := Joint(Average(a.joints[joint], wa, b.joints[joint], wb),
                                        Times(MaxReal(wa, wb), agreement(disagreement)))];
      }
    } else {
      joints := if a.valid then All(a, 0.7) else All(b, 0.7);
    }
    valid := PoseIsValid(States(o, joints));
  }

  function All(v: View, scale: real): (r: seq<Joint>)
    requires |v.joints| == |v.confidence| == JOINTS
    ensures |r| == JOINTS
  {
    seq(JOINTS, j requires 0 <= j < JOINTS => Only(v, scale, j))
  }

  // ---------------------------------------------------------------- convexity

  /** r divides the segment from p to q. */
  ghost predicate Between(p: Point, q: Point, r: Point, share: real) {
    0.0 <= share <= 1.0 && r == Plus(Scale(p, 1.0 - share), Scale(q, share))
  }

  lemma AverageOfReals(x: real, wx: real, y: real, wy: real)
    requires 0.0 < wx + wy
    ensures (Times(x, wx) + Times(y, wy)) / (wx + wy) ==
            Times(x, 1.0 - wy / (wx + wy)) + Times(y, wy / (wx + wy))
  {
    var s := wx + wy;
    var share := wy / s;
    assert share * s == wy;
    var mixed := x * (1.0 - share) + y * share;
    assert mixed * s == x * (s - share * s) + y * (share * s);
    assert mixed * s == x * wx + y * wy;
    QuotientIs(x * wx + y * wy, s, mixed);
  }

  lemma QuotientIs(a: real, s: real, q: real)
    requires 0.0 < s && q * s == a
    ensures a / s == q
  {
    var r := a / s;
    assert (r - q) * s == 0.0;
  }

  lemma ShareIsFraction(wp: real, wq: real)
    requires 0.0 <= wp && 0.0 <= wq && 0.0 < wp + wq
    ensures 0.0 <= wq / (wp + wq) <= 1.0
  {
    var share := wq / (wp + wq);
    assert share * (wp + wq) == wq;
  }

  /** Fusion never leaves the segment between the two measurements: a joint is one of them, a
      convex combination of both, or reported with no confidence at all. */
  lemma BlendIsConvex(len: LengthFunction, agreement: real -> real, severe: real,
                      p: Point, wp: real, q: Point, wq: real) returns (share: real)
    requires IsAgreement(agreement) && 0.0 <= wp <= 1.0 && 0.0 <= wq <= 1.0
    ensures var r := Blend(len, agreement, severe, p, wp, q, wq);
      && (Between(p, q, r.position, share) || r == Joint(ORIGIN, 0.0))
      && 0.0 <= r.confidence <= MaxReal(wp, wq)
  {
    hide Times, Scale;
    var disagreement := len(Minus(p, q));
    share := 0.0;
    if severe <= disagreement {
      share := if wq <= wp then 0.0 else 1.0;
      EndsOfSegment(p, q);
    } else if LEAST_WEIGHT < wp + wq {
      share := wq / (wp + wq);
      ShareIsFraction(wp, wq);
      AverageIsOnSegment(p, wp, q, wq);
      AtMostWhole(MaxReal(wp, wq), agreement(disagreement));
    }
  }

  lemma EndsOfSegment(p: Point, q: Point)
    ensures Plus(Scale(p, 1.0 - 0.0), Scale(q, 0.0)) == p
    ensures Plus(Scale(p, 1.0 - 1.0), Scale(q, 1.0)) == q
  {
  }

  lemma AverageIsOnSegment(p: Point, wp: real, q: Point, wq: real)
    requires 0.0 < wp + wq
    ensures var share := wq / (wp + wq);
      Average(p, wp, q, wq) == Plus(Scale(p, 1.0 - share), Scale(q, share))
  {
    hide Times;
    AverageOfReals(p.x, wp, q.x, wq);
    AverageOfReals(p.y, wp, q.y, wq);
    AverageOfReals(p.z, wp, q.z, wq);
  }

  lemma AtMostWhole(w: real, share: real)
    requires 0.0 <= w && 0.0 <= share <= 1.0
    ensures 0.0 <= Times(w, share) <= w
  {
    assert w - w * share == w * (1.0 - share);
    TimesNonNegative(w, 1.0 - share);
    TimesNonNegative(w, share);
  }

  // ---------------------------------------------------------- swapping the cameras

  lemma LengthOfOpposite(len: LengthFunction, p: Point, q: Point)
    requires IsLength(len)
    ensures len(Minus(p, q)) == len(Minus(q, p))
  {
    OppositeSquares(p, q);
    var u, v := Minus(p, q), Minus(q, p);
    assert SquareOf(len(u)) == Squared(u) && SquareOf(len(v)) == Squared(v);
    EqualSquares(len(u), len(v));
  }

  lemma OppositeSquares(p: Point, q: Point)
    ensures Squared(Minus(p, q)) == Squared(Minus(q, p))
  {
    OppositeSquare(p.x - q.x);
    OppositeSquare(p.y - q.y);
    OppositeSquare(p.z - q.z);
  }

  lemma OppositeSquare(a: real)
    ensures SquareOf(a) == SquareOf(-a)
  {
  }

  lemma AverageCommutes(p: Point, wp: real, q: Point, wq: real)
    requires 0.0 < wp + wq
    ensures Average(p, wp, q, wq) == Average(q, wq, p, wp)
  {
    hide Times;
  }

  /** Both views are equally trusted and disagree so much that one has to be chosen. */
  ghost predicate Tie(len: LengthFunction, severe: real, p: Point, wp: real, q: Point, wq: real) {
    severe <= len(Minus(p, q)) && wp == wq && p != q
  }

  ghost predicate TieAt(len: LengthFunction, o: Options, a: View, b: View, j: nat)
    requires j < |a.joints| && j < |a.confidence| && j < |b.joints| && j < |b.confidence|
  {
    a.valid && b.valid &&
    Tie(len, o.severe, a.joints[j], a.confidence[j], b.joints[j], b.confidence[j])
  }

  lemma BlendSwaps(len: LengthFunction, agreement: real -> real, severe: real,
                   p: Point, wp: real, q: Point, wq: real)
    requires IsLength(len)
    ensures var r, swapped := Blend(len, agreement, severe, p, wp, q, wq),
                              Blend(len, agreement, severe, q, wq, p, wp);
      && r.confidence == swapped.confidence
      && (r.position == swapped.position <==> !Tie(len, severe, p, wp, q, wq))
      && (Tie(len, severe, p, wp, q, wq) ==> r.confidence == 0.0)
  {
    LengthOfOpposite(len, p, q);
    if LEAST_WEIGHT < wp + wq {
      AverageCommutes(p, wp, q, wq);
    }
    hide IsLength, Times, Minus, Average;
  }

  /** In calibrated mode nothing depends on which camera is called the first, except the place
      of a joint at a tie, and there the confidence is zero either way. */
  lemma SwapChangesOnlyTies(len: LengthFunction, agreement: real -> real, o: Options, a: View, b: View, j: nat)
    requires IsLength(len) && ValidView(a) && ValidView(b) && j < JOINTS && o.mode.Calibrated?
    ensures var r, swapped := FuseJoint(len, agreement, o, a, b, j), FuseJoint(len, agreement, o, b, a, j);
      && r.confidence == swapped.confidence
      && (r.position == swapped.position <==> !TieAt(len, o, a, b, j))
      && (TieAt(len, o, a, b, j) ==> r.confidence == 0.0)
  {
    BlendSwaps(len, agreement, o.severe, a.joints[j], a.confidence[j], b.joints[j], b.confidence[j]);
    hide IsLength, Blend, Tie;
  }

  /** So the tracking states and the verdict on the whole pose are the same for both orders. */
  lemma SwapKeepsVerdict(len: LengthFunction, agreement: real -> real, o: Options, a: View, b: View,
                         joints: seq<Joint>, swapped: seq<Joint>)
    requires IsLength(len) && ValidView(a) && ValidView(b) && o.mode.Calibrated?
    requires |joints| == |swapped| == JOINTS
    requires forall j | 0 <= j < JOINTS :: joints[j] == FuseJoint(len, agreement, o, a, b, j)
    requires forall j | 0 <= j < JOINTS :: swapped[j] == FuseJoint(len, agreement, o, b, a, j)
    ensures States(o, joints) == States(o, swapped)
    ensures PoseIsValid(States(o, joints)) == PoseIsValid(States(o, swapped))
  {
    hide FuseJoint, PoseIsValid, IsLength;
    forall j | 0 <= j < JOINTS
      ensures joints[j].confidence == swapped[j].confidence
    {
      SwapChangesOnlyTies(len, agreement, o, a, b, j);
    }
  }

  // -------------------------------------------------------------- whom to believe

  /** What comes out for a joint of two valid views.  Views that disagree severely leave the better
      supported one, trusted by the difference; others meet at the weighted mean, trusted like the
      better one times their agreement; two views without support leave nothing. */
  ghost predicate IsJoined(len: LengthFunction, agreement: real -> real, severe: real,
                           p: Point, wp: real, q: Point, wq: real, r: Joint)
  {
    var d := len(Minus(p, q));
    if severe <= d then
      if wp < wq then r == Joint(q, wq - wp) else r == Joint(p, wp - wq)
    else if 0.000001 < wp + wq then
      && Scale(r.position, wp + wq) == Plus(Scale(p, wp), Scale(q, wq))
      && r.confidence == (if wp < wq then Times(wq, agreement(d)) else Times(wp, agreement(d)))
    else r == Joint(Point(0.0, 0.0, 0.0), 0.0)
  }

  lemma WeightedMean(x: real, wx: real, y: real, wy: real)
    requires 0.0 < wx + wy
    ensures Times((Times(x, wx) + Times(y, wy)) / (wx + wy), wx + wy) == Times(x, wx) + Times(y, wy)
  {
    var q := (x * wx + y * wy) / (wx + wy);
    assert q * (wx + wy) == x * wx + y * wy;
  }

  lemma BlendIsJoined(len: LengthFunction, agreement: real -> real, severe: real,
                      p: Point, wp: real, q: Point, wq: real)
    ensures IsJoined(len, agreement, severe, p, wp, q, wq, Blend(len, agreement, severe, p, wp, q, wq))
  {
    hide Times;
    if 0.000001 < wp + wq {
      WeightedMean(p.x, wp, q.x, wq);
      WeightedMean(p.y, wp, q.y, wq);
      WeightedMean(p.z, wp, q.z, wq);
    }
  }

  /** A view alone, trusted by a share. */
  predicate IsAlone(v: View, j: nat, share: real, r: Joint)
    requires j < |v.joints| && j < |v.confidence|
  {
    if v.valid then r.position == v.joints[j] && r.confidence == Times(v.confidence[j], share)
    else r == Joint(Point(0.0, 0.0, 0.0), 0.0)
  }

  /** What comes out for every joint: in primary mode the primary view, and three quarters of the
      trust in the other one while the primary is not valid; in calibrated mode the joined views, or
      seven tenths of the trust in the only valid one. */
  lemma FusedJoint(len: LengthFunction, agreement: real -> real, o: Options, a: View, b: View, j: nat)
    requires ValidView(a) && ValidView(b) && j < JOINTS
    ensures var r := FuseJoint(len, agreement, o, a, b, j);
      if o.mode.Calibrated? && a.valid && b.valid then
        IsJoined(len, agreement, o.severe, a.joints[j], a.confidence[j], b.joints[j], b.confidence[j], r)
      else if o.mode.Calibrated? then IsAlone(if a.valid then a else b, j, 0.7, r)
      else if o.primary == 0 then if a.valid then IsAlone(a, j, 1.0, r) else IsAlone(b, j, 0.75, r)
      else if b.valid then IsAlone(b, j, 1.0, r) else IsAlone(a, j, 0.75, r)
  {
    hide Blend, IsJoined, Times;
    BlendIsJoined(len, agreement, o.severe, a.joints[j], a.confidence[j], b.joints[j], b.confidence[j]);
  }

  /** The joints that count as tracked. */
  function Counted(o: Options, joints: seq<Joint>): set<nat> {
    set j: nat | j < |joints| && (o.tracked <= joints[j].confidence || o.inferred <= joints[j].confidence)
  }

  lemma {:induction false} CountIsSize(o: Options, joints: seq<Joint>)
    ensures CountTracked(States(o, joints)) == |Counted(o, joints)|
  {
    if joints == [] {
      assert Counted(o, joints) == {};
    } else {
      var n := |joints| - 1;
      CountIsSize(o, joints[..n]);
      assert States(o, joints)[..n] == States(o, joints[..n]);
      assert Counted(o, joints) == Counted(o, joints[..n]) + if n in Counted(o, joints) then {n} else {};
    }
  }

  /** A pose is valid exactly if at least ten joints count, among them the core: joints 1, 8, 9 and
      10. */
  lemma VerdictIsCount(o: Options, joints: seq<Joint>)
    requires |joints| == JOINTS
    ensures PoseIsValid(States(o, joints)) <==>
            10 <= |Counted(o, joints)| && {1, 8, 9, 10} <= Counted(o, joints)
  {
    CountIsSize(o, joints);
    var states, counted := States(o, joints), Counted(o, joints);
    assert forall j: nat | j < JOINTS :: j in counted <==> 0 < states[j];
    if PoseIsValid(states) {
      assert CORE[0] == 1 && CORE[1] == 8 && CORE[2] == 9 && CORE[3] == 10;
    }
    assert forall k | 0 <= k < |CORE| :: CORE[k] in {1, 8, 9, 10};
  }
}
