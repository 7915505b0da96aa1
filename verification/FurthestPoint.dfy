/** Furthest-point sampling: the selection loop, its meaning, and the proof that it
    is a 2-approximation to the k-center problem over the valid points. */
module FurthestPoint {
  import opened Basics
  import opened PointCloud

  const CAP := 10000000000.0
  const VALID_ABOVE := 0.001

  type Cloud = seq<Point>

  datatype Sampling = Sampled(indices: seq<seq<nat>>) | InvalidShape

  predicate Valid(p: Point) {
    Squared(p) > VALID_ABOVE
  }

  predicate Within(indices: seq<nat>, n: nat) {
    forall k | 0 <= k < |indices| :: indices[k] < n
  }

  /** The capped squared distance from point i to the nearest chosen point. */
  function Near(points: Cloud, chosen: seq<nat>, i: nat): (r: real)
    requires i < |points| && Within(chosen, |points|)
    ensures 0.0 <= r <= CAP
  {
    if chosen == [] then CAP
    else
      var k := |chosen| - 1;
      MinReal(Near(points, chosen[..k], i), Distance2(points[i], points[chosen[k]]))
  }

  function Score(points: Cloud, chosen: seq<nat>): (s: seq<real>)
    requires Within(chosen, |points|)
  {
    seq(|points|, i requires 0 <= i < |points| =>
      if Valid(points[i]) then Near(points, chosen, i) else -1.0)
  }

  /** The index of the first maximal element. */
  function FirstArgMax(s: seq<real>): (k: nat)
    requires s != []
    ensures k < |s|
    ensures forall j | 0 <= j < |s| :: s[j] <= s[k]
    ensures forall j | 0 <= j < k :: s[j] < s[k]
  {
    if |s| == 1 then 0
    else
      var k := FirstArgMax(s[..|s| - 1]);
      if s[k] < s[|s| - 1] then |s| - 1 else k
  }

  /** The first n choices on one cloud. */
  function Selection(points: Cloud, n: nat): (r: seq<nat>)
    requires points != [] && 0 < n
    ensures |r| == n && r[0] == 0
    ensures Within(r, |points|)
  {
    if n == 1 then [0]
    else
      var chosen := Selection(points, n - 1);
      chosen + [FirstArgMax(Score(points, chosen))]
  }

  // --------------------------------------------- the tensor steps of one round

  function Minimum(a: seq<real>, b: seq<real>): seq<real>
    requires |a| == |b|
  {
    seq(|a|, i requires 0 <= i < |a| => MinReal(a[i], b[i]))
  }

  function DistancesTo(points: Cloud, centroid: Point): seq<real> {
    seq(|points|, i requires 0 <= i < |points| => Distance2(points[i], centroid))
  }

  function MaskedFill(values: seq<real>, valid: seq<bool>): seq<real>
    requires |values| == |valid|
  {
    seq(|values|, i requires 0 <= i < |values| => if valid[i] then values[i] else -1.0)
  }

  function ValidMask(points: Cloud): seq<bool> {
    seq(|points|, i requires 0 <= i < |points| => Valid(points[i]))
  }

  /** The running array holds the capped distance to every point chosen so far. */
  ghost predicate TracksNear(points: Cloud, chosen: seq<nat>, minimum: seq<real>)
    requires Within(chosen, |points|)
  {
    && |minimum| == |points|
    && forall i | 0 <= i < |points| :: minimum[i] == Near(points, chosen, i)
  }

  /** One round on one cloud: fold the last choice into the running array, then take
      the furthest valid point. */
  lemma RoundIsNextChoice(points: Cloud, n: nat, minimum: seq<real>)
    requires points != [] && 0 < n
    requires TracksNear(points, Selection(points, n)[..n - 1], minimum)
    ensures var chosen := Selection(points, n);
      var next := Minimum(minimum, DistancesTo(points, points[chosen[n - 1]]));
      && TracksNear(points, chosen, next)
      && FirstArgMax(MaskedFill(next, ValidMask(points))) == Selection(points, n + 1)[n]
  {
    hide Distance2, FirstArgMax, Valid;
    var chosen := Selection(points, n);
    var next := Minimum(minimum, DistancesTo(points, points[chosen[n - 1]]));
    assert TracksNear(points, chosen, next);
    assert MaskedFill(next, ValidMask(points)) == Score(points, chosen);
  }

  lemma {:induction false} SelectionPrefix(points: Cloud, n: nat, k: nat)
    requires points != [] && 0 < k <= n
    ensures Selection(points, n)[..k] == Selection(points, k)
  {
    hide Score, FirstArgMax;
    if k < n {
      SelectionPrefix(points, n - 1, k);
      assert Selection(points, n)[..k] == Selection(points, n - 1)[..k];
    }
  }

  // The same round in lock step over a batch of clouds.

  function NextMinimum(batch: seq<Cloud>, minimum: seq<seq<real>>, farthest: seq<nat>): (r: seq<seq<real>>)
    requires |minimum| == |farthest| == |batch|
    requires forall b | 0 <= b < |batch| :: |minimum[b]| == |batch[b]| && farthest[b] < |batch[b]|
    ensures |r| == |batch| && forall b | 0 <= b < |batch| :: |r[b]| == |batch[b]|
  {
    seq(|batch|, b requires 0 <= b < |batch| =>
      Minimum(minimum[b], DistancesTo(batch[b], batch[b][farthest[b]])))
  }

  function NextFarthest(batch: seq<Cloud>, minimum: seq<seq<real>>, valid: seq<seq<bool>>): seq<nat>
    requires |minimum| == |valid| == |batch|
    requires forall b | 0 <= b < |batch| :: 0 < |minimum[b]| == |valid[b]|
  {
    seq(|batch|, b requires 0 <= b < |batch| => FirstArgMax(MaskedFill(minimum[b], valid[b])))
  }

  /** indices[:, sample] = farthest */
  function StoreColumn(indices: seq<seq<nat>>, sample: nat, farthest: seq<nat>): seq<seq<nat>>
    requires |indices| == |farthest|
    requires forall b | 0 <= b < |indices| :: sample < |indices[b]|
  {
    seq(|indices|, b requires 0 <= b < |indices| => indices[b][sample := farthest[b]])
  }

  ghost predicate RoundInv(batch: seq<Cloud>, count: nat, sample: nat,
                           indices: seq<seq<nat>>, minimum: seq<seq<real>>, farthest: seq<nat>)
    requires 0 < sample <= count && forall b | 0 <= b < |batch| :: batch[b] != []
  {
    && |indices| == |minimum| == |farthest| == |batch|
    && forall b | 0 <= b < |batch| ::
      && |indices[b]| == count
      && indices[b][..sample] == Selection(batch[b], sample)
      && farthest[b] == Selection(batch[b], sample)[sample - 1]
      && TracksNear(batch[b], Selection(batch[b], sample)[..sample - 1], minimum[b])
  }

  lemma RoundKeepsInv(batch: seq<Cloud>, count: nat, sample: nat, valid: seq<seq<bool>>,
                      indices: seq<seq<nat>>, minimum: seq<seq<real>>, farthest: seq<nat>)
    requires 0 < sample < count && forall b | 0 <= b < |batch| :: batch[b] != []
    requires RoundInv(batch, count, sample, indices, minimum, farthest)
    requires |valid| == |batch|
    requires forall b | 0 <= b < |batch| ::
      valid[b] == ValidMask(batch[b]) && |valid[b]| == |batch[b]| == |minimum[b]|
    ensures var minimum' := NextMinimum(batch, minimum, farthest);
      var farthest' := NextFarthest(batch, minimum', valid);
      RoundInv(batch, count, sample + 1, StoreColumn(indices, sample, farthest'), minimum', farthest')
  {
    var minimum' := NextMinimum(batch, minimum, farthest);
    var farthest' := NextFarthest(batch, minimum', valid);
    var indices' := StoreColumn(indices, sample, farthest');
    forall b | 0 <= b < |batch|
      ensures |indices'[b]| == count
      ensures indices'[b][..sample + 1] == Selection(batch[b], sample + 1)
      ensures farthest'[b] == Selection(batch[b], sample + 1)[sample]
      ensures TracksNear(batch[b], Selection(batch[b], sample + 1)[..sample], minimum'[b])
    {
      RoundIsNextChoice(batch[b], sample, minimum[b]);
      SelectionPrefix(batch[b], sample + 1, sample);
      assert indices'[b][..sample + 1] == indices[b][..sample] + [farthest'[b]];
    }
  }

  /** The batched selection loop.  All clouds of a batch have pointCount points. */
  method FurthestPointSample(batch: seq<Cloud>, pointCount: nat, count: int)
    returns (r: Sampling)
    requires forall b | 0 <= b < |batch| :: |batch[b]| == pointCount
    ensures r.InvalidShape? <==> !(0 < count <= pointCount)
    ensures r.Sampled? ==>
      && |r.indices| == |batch|
      && forall b | 0 <= b < |batch| :: r.indices[b] == Selection(batch[b], count)
    ensures r.Sampled? ==> forall b | 0 <= b < |batch| && Moderate(batch[b]) :: IsGreedy(batch[b], r.indices[b])
  {
    if !(0 < count <= pointCount) {
      return InvalidShape;
    }
    var indices := seq(|batch|, _ => seq(count, _ => 0));
    var minimum := seq(|batch|, _ => seq(pointCount, _ => CAP));
    var valid := seq(|batch|, b requires 0 <= b < |batch| => ValidMask(batch[b]));
    var farthest := seq(|batch|, _ => 0);
    forall b | 0 <= b < |batch|
      ensures indices[b][..1] == Selection(batch[b], 1)
      ensures TracksNear(batch[b], Selection(batch[b], 1)[..0], minimum[b])
    {
      assert Selection(batch[b], 1) == [0];
    }
    for sample := 1 to count
      invariant RoundInv(batch, count, sample, indices, minimum, farthest)
    {
      RoundKeepsInv(batch, count, sample, valid, indices, minimum, farthest);
      minimum := NextMinimum(batch, minimum, farthest);
      farthest := NextFarthest(batch, minimum, valid);
      indices := StoreColumn(indices, sample, farthest);
    }
    forall b | 0 <= b < |batch|
      ensures indices[b] == Selection(batch[b], count)
    {
      assert indices[b] == indices[b][..count];
    }
    forall b | 0 <= b < |batch| && Moderate(batch[b])
      ensures IsGreedy(batch[b], indices[b])
    {
      SelectionIsGreedy(batch[b], count);
    }
    r := Sampled(indices);
  }

  // -------------------------------------------------------------- its meaning

  /** Near is the capped minimum: a lower bound of every chosen distance that is
      attained unless the cap is. */
  lemma {:induction false} NearIsMinimum(points: Cloud, chosen: seq<nat>, i: nat)
    requires i < |points| && Within(chosen, |points|)
    ensures forall s | 0 <= s < |chosen| ::
      Near(points, chosen, i) <= Distance2(points[i], points[chosen[s]])
    ensures Near(points, chosen, i) == CAP || exists s | 0 <= s < |chosen| ::
      Near(points, chosen, i) == Distance2(points[i], points[chosen[s]])
  {
    if chosen != [] {
      var init := chosen[..|chosen| - 1];
      NearIsMinimum(points, init, i);
      forall s | 0 <= s < |chosen|
        ensures Near(points, chosen, i) <= Distance2(points[i], points[chosen[s]])
      {
        if s < |init| {
          assert init[s] == chosen[s];
        }
      }
    }
  }

  lemma {:induction false} NearShrinks(points: Cloud, chosen: seq<nat>, k: nat, i: nat)
    requires i < |points| && Within(chosen, |points|)
    requires k <= |chosen|
    ensures Near(points, chosen, i) <= Near(points, chosen[..k], i)
  {
    if k == |chosen| {
      assert chosen[..k] == chosen;
    } else {
      var init := chosen[..|chosen| - 1];
      NearShrinks(points, init, k, i);
      assert init[..k] == chosen[..k];
    }
  }

  /** If any valid point exists, every choice after the seed is valid, and chosen
      points are pairwise at least as far apart as any valid point is from them. */
  lemma ChoicesAreSpread(points: Cloud, n: nat, v: nat, s: nat, t: nat)
    requires points != [] && v < |points| && Valid(points[v]) && s < t < n
    ensures var chosen := Selection(points, n);
      && Valid(points[chosen[t]])
      && Near(points, chosen, v) <= Distance2(points[chosen[t]], points[chosen[s]])
  {
    hide Distance2, FirstArgMax, Squared;
    var chosen, before := Selection(points, n), Selection(points, t);
    SelectionPrefix(points, n, t + 1);
    SelectionPrefix(points, n, t);
    SelectionPrefix(points, t + 1, t);
    var next := FirstArgMax(Score(points, before));
    assert chosen[t] == Selection(points, t + 1)[t] == next;
    assert Score(points, before)[v] == Near(points, before, v);
    NearShrinks(points, chosen, t, v);
    NearIsMinimum(points, before, next);
    assert chosen[s] == before[s];
  }

  // ------------------------------------------------------------ the greedy choice

  /** Clouds on which the cap does not bind. */
  ghost predicate Moderate(points: Cloud) {
    forall i, j | 0 <= i < |points| && 0 <= j < |points| :: Euclidean2(points[i], points[j]) < 10000000000.0
  }

  /** The points that may be chosen. */
  ghost predicate IsSolid(points: Cloud, i: int) {
    0 <= i < |points| && 0.001 < Euclidean2(points[i], Point(0.0, 0.0, 0.0))
  }

  /** The squared distance to the nearest of the earlier choices. */
  function Gap(points: Cloud, earlier: seq<nat>, i: int): (r: real)
    requires earlier != [] && Within(earlier, |points|) && 0 <= i < |points|
    ensures forall s | 0 <= s < |earlier| :: r <= Euclidean2(points[i], points[earlier[s]])
    ensures exists s | 0 <= s < |earlier| :: r == Euclidean2(points[i], points[earlier[s]])
  {
    var k := |earlier| - 1;
    var last := Euclidean2(points[i], points[earlier[k]]);
    if k == 0 then last
    else
      var rest := Gap(points, earlier[..k], i);
      assert forall s | 0 <= s < k :: earlier[..k][s] == earlier[s];
      if last < rest then last else rest
  }

  /** c is the first of the solid points that are furthest from the earlier choices, or 0 if no
      point is solid. */
  ghost predicate IsFurthest(points: Cloud, earlier: seq<nat>, c: nat)
    requires earlier != [] && Within(earlier, |points|)
  {
    if exists v :: IsSolid(points, v) then
      && IsSolid(points, c)
      && forall v | IsSolid(points, v) ::
           && Gap(points, earlier, v) <= Gap(points, earlier, c)
           && (v < c ==> Gap(points, earlier, v) < Gap(points, earlier, c))
    else c == 0
  }

  ghost predicate IsGreedy(points: Cloud, chosen: seq<nat>) {
    && Within(chosen, |points|) && chosen != [] && chosen[0] == 0
    && forall t | 1 <= t < |chosen| :: IsFurthest(points, chosen[..t], chosen[t])
  }

  lemma {:induction false} NearIsGap(points: Cloud, earlier: seq<nat>, i: nat)
    requires earlier != [] && Within(earlier, |points|) && i < |points| && Moderate(points)
    ensures Near(points, earlier, i) == Gap(points, earlier, i)
  {
    var k := |earlier| - 1;
    DistanceIsEuclidean(points[i], points[earlier[k]]);
    assert Euclidean2(points[i], points[earlier[k]]) < 10000000000.0;
    hide Euclidean2, Distance2, Moderate;
    if k == 0 {
      assert earlier[..k] == [];
    } else {
      NearIsGap(points, earlier[..k], i);
    }
  }

  lemma SolidIsValid(p: Point)
    ensures Valid(p) <==> 0.001 < Euclidean2(p, Point(0.0, 0.0, 0.0))
  {
    DistanceIsEuclidean(p, Point(0.0, 0.0, 0.0));
  }

  /** The next choice is the first furthest point. */
  lemma NextIsFurthest(points: Cloud, earlier: seq<nat>)
    requires points != [] && earlier != [] && Within(earlier, |points|) && Moderate(points)
    ensures IsFurthest(points, earlier, FirstArgMax(Score(points, earlier)))
  {
    hide Euclidean2, Moderate, Valid, Near, Gap;
    var score := Score(points, earlier);
    forall v | 0 <= v < |points|
      ensures score[v] == if IsSolid(points, v) then Gap(points, earlier, v) else -1.0
      ensures IsSolid(points, v) ==> 0.0 <= Gap(points, earlier, v)
    {
      SolidIsValid(points[v]);
      NearIsGap(points, earlier, v);
    }
    var c := FirstArgMax(score);
    if exists v :: IsSolid(points, v) {
      var v :| IsSolid(points, v);
      assert score[v] <= score[c];
      assert IsSolid(points, c);
      forall v | IsSolid(points, v)
        ensures Gap(points, earlier, v) <= Gap(points, earlier, c)
        ensures v < c ==> Gap(points, earlier, v) < Gap(points, earlier, c)
      {
        assert score[v] <= score[c];
      }
    } else {
      assert score[0] == score[c];
    }
  }

  /** On every such cloud the selection is greedy: each choice after point zero maximises the
      distance to the nearest earlier choice, the first index at a tie. */
  lemma {:induction false} SelectionIsGreedy(points: Cloud, n: nat)
    requires points != [] && 0 < n && Moderate(points)
    ensures IsGreedy(points, Selection(points, n))
  {
    hide Moderate, IsFurthest, Score, FirstArgMax;
    if 1 < n {
      SelectionIsGreedy(points, n - 1);
      var before, chosen := Selection(points, n - 1), Selection(points, n);
      NextIsFurthest(points, before);
      forall t | 1 <= t < n
        ensures IsFurthest(points, chosen[..t], chosen[t])
      {
        assert chosen[..t] == before[..t];
        assert before[..n - 1] == before;
      }
    }
  }

  // -------------------------------------------------------------- pigeonhole

  lemma {:induction false} DistinctCount(f: seq<nat>, n: nat)
    requires forall i | 0 <= i < |f| :: f[i] < n
    requires forall i, j | 0 <= i < j < |f| :: f[i] != f[j]
    ensures |f| <= n
  {
    if f == [] {
      return;
    }
    assert f[0] < n;
    if exists k :: 0 <= k < |f| && f[k] == n - 1 {
      var k :| 0 <= k < |f| && f[k] == n - 1;
      DistinctCount(f[..k] + f[k + 1..], n - 1);
    } else {
      DistinctCount(f, n - 1);
    }
  }

  lemma Pigeonhole(f: seq<nat>, n: nat) returns (i: nat, j: nat)
    requires n < |f| && forall k | 0 <= k < |f| :: f[k] < n
    ensures i < j < |f| && f[i] == f[j]
  {
    if forall i, j | 0 <= i < j < |f| :: f[i] != f[j] {
      DistinctCount(f, n);
    } else {
      i, j :| 0 <= i < j < |f| && f[i] == f[j];
    }
  }

  // ------------------------------------------------------------- the theorem

  /** centers cover every valid point within squared radius q. */
  ghost predicate Covers(points: Cloud, centers: seq<Point>, q: real) {
    forall i | 0 <= i < |points| && Valid(points[i]) ::
      exists c | 0 <= c < |centers| :: Distance2(points[i], centers[c]) <= q
  }

  function ValidChoices(points: Cloud, n: nat): nat
    requires points != []
  {
    if Valid(points[0]) then n else n - (if n == 0 then 0 else 1)
  }

  /** The valid sampled points, followed by one more valid point. */
  function Spread(points: Cloud, n: nat, v: nat): (r: seq<nat>)
    requires points != [] && 0 < n
    ensures r != []
  {
    Selection(points, n)[if Valid(points[0]) then 0 else 1..] + [v]
  }

  lemma SpreadIsValid(points: Cloud, n: nat, v: nat, k: nat)
    requires points != [] && 0 < n && v < |points| && Valid(points[v])
    requires k < |Spread(points, n, v)|
    ensures |Spread(points, n, v)| == ValidChoices(points, n) + 1
    ensures Spread(points, n, v)[k] < |points| && Valid(points[Spread(points, n, v)[k]])
  {
    hide Distance2, Valid, Near, Selection;
    var first := if Valid(points[0]) then 0 else 1;
    if k + first < n && 0 < k + first {
      ChoicesAreSpread(points, n, v, 0, k + first);
    }
  }

  lemma SpreadIsFarApart(points: Cloud, n: nat, v: nat, i: nat, j: nat)
    requires points != [] && 0 < n && v < |points| && Valid(points[v])
    requires i < j < |Spread(points, n, v)|
    requires Within(Spread(points, n, v), |points|)
    ensures var spread := Spread(points, n, v);
      Near(points, Selection(points, n), v) <= Distance2(points[spread[j]], points[spread[i]])
  {
    hide Distance2, Valid, Near, Selection;
    var chosen := Selection(points, n);
    var first := if Valid(points[0]) then 0 else 1;
    if j + first < n {
      ChoicesAreSpread(points, n, v, i + first, j + first);
    } else {
      NearIsMinimum(points, chosen, v);
    }
  }

  /** 2-approximation, in squared distances: whatever k centers (anywhere in space)
      cover the valid points within squared radius q, every valid point is within
      squared distance 4q of the k sampled points, up to the cap.  A seed at point
      zero that is not itself valid costs one center. */
  lemma SamplingIsTwoApproximation(points: Cloud, n: nat, centers: seq<Point>, q: real, v: nat)
    requires points != [] && 0 < n && v < |points| && Valid(points[v])
    requires Covers(points, centers, q) && |centers| <= ValidChoices(points, n)
    ensures Near(points, Selection(points, n), v) <= 4.0 * q
  {
    hide Distance2, Valid, Near, Selection, Spread;
    var spread := Spread(points, n, v);
    forall k | 0 <= k < |spread|
      ensures |spread| == ValidChoices(points, n) + 1
      ensures spread[k] < |points| && Valid(points[spread[k]])
    {
      SpreadIsValid(points, n, v, k);
    }
    var owner := seq(|spread|, k requires 0 <= k < |spread| =>
      Owner(points, centers, q, spread[k]));
    SpreadIsValid(points, n, v, 0);
    var i, j := Pigeonhole(owner, |centers|);
    SpreadIsFarApart(points, n, v, i, j);
    Parallelogram(points[spread[j]], points[spread[i]], centers[owner[i]]);
  }

  ghost function Owner(points: Cloud, centers: seq<Point>, q: real, i: nat): (c: nat)
    requires Covers(points, centers, q) && i < |points| && Valid(points[i])
    ensures c < |centers| && Distance2(points[i], centers[c]) <= q
  {
    var c :| 0 <= c < |centers| && Distance2(points[i], centers[c]) <= q;
    c
  }

  /** Below ten thousand million this is the textbook statement: the sampled points
      cover every valid point within twice the optimal radius. */
  lemma SampleCovers(points: Cloud, n: nat, centers: seq<Point>, q: real)
    requires points != [] && 0 < n && 4.0 * q < 10000000000.0
    requires Covers(points, centers, q) && |centers| <= ValidChoices(points, n)
    ensures var chosen := Selection(points, n);
      Covers(points, seq(n, s requires 0 <= s < n => points[chosen[s]]), 4.0 * q)
  {
    hide Distance2, Near, Selection, Valid;
    var chosen := Selection(points, n);
    var sampled := seq(n, s requires 0 <= s < n => points[chosen[s]]);
    forall v | 0 <= v < |points| && Valid(points[v])
      ensures exists s | 0 <= s < |sampled| :: Distance2(points[v], sampled[s]) <= 4.0 * q
    {
      SamplingIsTwoApproximation(points, n, centers, q, v);
      NearIsMinimum(points, chosen, v);
      var s :| 0 <= s < |chosen| &&
        Near(points, chosen, v) == Distance2(points[v], points[chosen[s]]);
      assert sampled[s] == points[chosen[s]];
    }
  }

  // ---------------------------------------------------------- why the seed matters

  /** centers lists the different positions of the valid points, each once. */
  ghost predicate AreValidPositions(points: Cloud, centers: seq<Point>) {
    && (forall j, k | 0 <= j < k < |centers| :: centers[j] != centers[k])
    && (forall j | 0 <= j < |centers| :: exists i :: IsValidAt(points, i, centers[j]))
    && forall i | 0 <= i < |points| && Valid(points[i]) :: exists j | 0 <= j < |centers| :: centers[j] == points[i]
  }

  ghost predicate IsValidAt(points: Cloud, i: int, p: Point) {
    0 <= i < |points| && points[i] == p && Valid(p)
  }

  ghost predicate IsChosen(points: Cloud, chosen: seq<nat>, p: Point)
    requires Within(chosen, |points|)
  {
    exists t :: ChosenAt(points, chosen, t, p)
  }

  ghost predicate ChosenAt(points: Cloud, chosen: seq<nat>, t: int, p: Point)
    requires Within(chosen, |points|)
  {
    0 <= t < |chosen| && points[chosen[t]] == p
  }

  /** A sample that starts at an invalid point has no room for all valid positions. */
  lemma OneIsMissed(points: Cloud, chosen: seq<nat>, centers: seq<Point>) returns (j: nat)
    requires Within(chosen, |points|) && chosen != [] && !Valid(points[chosen[0]])
    requires AreValidPositions(points, centers) && |centers| == |chosen|
    ensures j < |centers| && !IsChosen(points, chosen, centers[j])
  {
    if forall k | 0 <= k < |centers| :: IsChosen(points, chosen, centers[k]) {
      hide SlotOf, IsChosen, Valid, Squared;
      forall k | 0 <= k < |centers|
        ensures 0 < SlotOf(points, chosen, centers[k]) < |chosen|
      {
        var i :| IsValidAt(points, i, centers[k]);
        SlotIsLater(points, chosen, centers[k]);
      }
      var slots: seq<nat> := seq(|centers|, k requires 0 <= k < |centers| && 0 < SlotOf(points, chosen, centers[k]) =>
        SlotOf(points, chosen, centers[k]) - 1);
      var a, b := Pigeonhole(slots, |chosen| - 1);
      SameSlot(points, chosen, centers[a], centers[b]);
      assert false;
    } else {
      j :| 0 <= j < |centers| && !IsChosen(points, chosen, centers[j]);
    }
  }

  lemma SlotIsLater(points: Cloud, chosen: seq<nat>, p: Point)
    requires Within(chosen, |points|) && chosen != [] && !Valid(points[chosen[0]])
    requires IsChosen(points, chosen, p) && Valid(p)
    ensures 0 < SlotOf(points, chosen, p) < |chosen|
  {
    hide Valid;
  }

  lemma SameSlot(points: Cloud, chosen: seq<nat>, p: Point, q: Point)
    requires Within(chosen, |points|) && IsChosen(points, chosen, p) && IsChosen(points, chosen, q)
    requires SlotOf(points, chosen, p) == SlotOf(points, chosen, q)
    ensures p == q
  {
    hide Valid;
  }

  ghost function SlotOf(points: Cloud, chosen: seq<nat>, p: Point): (t: nat)
    requires Within(chosen, |points|)
    ensures IsChosen(points, chosen, p) ==> ChosenAt(points, chosen, t, p)
    ensures t < |chosen| || t == 0
  {
    if IsChosen(points, chosen, p) then
      var t :| ChosenAt(points, chosen, t, p);
      t
    else 0
  }

  /** Why the seed matters.  With as many choices as there are different valid positions, the
      positions themselves cover at radius zero, and the sample does so, too, exactly when point
      zero is valid; otherwise a valid point is missed and no constant factor holds. */
  lemma InvalidSeedBreaksTheBound(points: Cloud, n: nat, centers: seq<Point>)
    requires points != [] && 0 < n == |centers| && AreValidPositions(points, centers)
    ensures Covers(points, centers, 0.0)
    ensures Valid(points[0]) <==>
            forall v | 0 <= v < |points| && Valid(points[v]) :: Near(points, Selection(points, n), v) == 0.0
  {
    hide Squared, Selection, Near;
    forall i | 0 <= i < |points| && Valid(points[i])
      ensures exists j | 0 <= j < |centers| :: Distance2(points[i], centers[j]) <= 0.0
    {
      var j :| 0 <= j < |centers| && centers[j] == points[i];
      assert Distance2(points[i], centers[j]) == 0.0;
    }
    hide Distance2;
    if Valid(points[0]) {
      forall v | 0 <= v < |points| && Valid(points[v])
        ensures Near(points, Selection(points, n), v) == 0.0
      {
        SamplingIsTwoApproximation(points, n, centers, 0.0, v);
      }
    } else {
      var chosen := Selection(points, n);
      var j := OneIsMissed(points, chosen, centers);
      var v :| IsValidAt(points, v, centers[j]);
      MissedIsFar(points, chosen, v);
    }
  }

  lemma MissedIsFar(points: Cloud, chosen: seq<nat>, v: nat)
    requires v < |points| && Within(chosen, |points|) && !IsChosen(points, chosen, points[v])
    ensures 0.0 < Near(points, chosen, v)
  {
    NearIsMinimum(points, chosen, v);
    if Near(points, chosen, v) != CAP {
      var s :| 0 <= s < |chosen| && Near(points, chosen, v) == Distance2(points[v], points[chosen[s]]);
      assert !ChosenAt(points, chosen, s, points[v]);
    }
  }
}
