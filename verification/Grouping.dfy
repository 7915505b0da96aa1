/** Ball query, gathering and grouping around the sampled reference points, and the
    agreement of the model's stages with the fixed export graph. */
module Grouping {
  import opened PointCloud
  import opened FurthestPoint
  import opened Sorting

  // ------------------------------------------------------------------- top-k

  /** torch.topk(largest=False, sorted=True): the k smallest, in ascending order. */
  function TopK(s: seq<nat>, k: nat): (r: seq<nat>)
    requires k <= |s|
    ensures |r| == k
  {
    Sort(s)[..k]
  }

  // -------------------------------------------------------------- ball query

  function Inside(points: Cloud, reference: Point, radius2: real, i: nat): bool
    requires i < |points|
  {
    Distance2(reference, points[i]) < radius2
  }

  /** Every source index, with the ones outside the ball replaced by |points|. */
  function Candidates(points: Cloud, reference: Point, radius2: real): seq<nat> {
    seq(|points|, i requires 0 <= i < |points| =>
      if Inside(points, reference, radius2, i) then i else |points|)
  }

  /** Replace the out-of-ball marker by the first neighbour, or by 0. */
  function Pad(selected: seq<nat>, marker: nat): seq<nat>
    requires selected != []
  {
    var first := if selected[0] == marker then 0 else selected[0];
    seq(|selected|, j requires 0 <= j < |selected| =>
      if selected[j] == marker then first else selected[j])
  }

  function Neighbours(points: Cloud, reference: Point, radius2: real, count: nat): (r: seq<nat>)
    requires 0 < count <= |points|
    ensures |r| == count
  {
    Pad(TopK(Candidates(points, reference, radius2), count), |points|)
  }

  /** _ball_query on one cloud. */
  function BallQuery(points: Cloud, references: seq<Point>, radius: real, count: nat): (r: seq<seq<nat>>)
    requires 0 < count <= |points|
    ensures |r| == |references|
  {
    seq(|references|, i requires 0 <= i < |references| =>
      Neighbours(points, references[i], radius * radius, count))
  }

  /** The in-ball indices from position i on, ascending. */
  function Ball(points: Cloud, reference: Point, radius2: real, i: nat): (b: seq<nat>)
    requires i <= |points|
    ensures |b| <= |points| - i
    ensures forall k | 0 <= k < |b| :: i <= b[k] < |points|
    decreases |points| - i
  {
    if i == |points| then []
    else if Inside(points, reference, radius2, i) then [i] + Ball(points, reference, radius2, i + 1)
    else Ball(points, reference, radius2, i + 1)
  }

  /** Ball lists exactly the in-ball indices, each once, in ascending order. */
  lemma {:induction false} BallIsExact(points: Cloud, reference: Point, radius2: real, i: nat)
    requires i <= |points|
    ensures var b := Ball(points, reference, radius2, i);
      && (forall j, k | 0 <= j < k < |b| :: b[j] < b[k])
      && forall k | i <= k < |points| :: k in b <==> Inside(points, reference, radius2, k)
    decreases |points| - i
  {
    hide Inside;
    if i < |points| {
      BallIsExact(points, reference, radius2, i + 1);
      var rest := Ball(points, reference, radius2, i + 1);
      var b := Ball(points, reference, radius2, i);
      forall k | i <= k < |points|
        ensures k in b <==> Inside(points, reference, radius2, k)
      {
        assert k in b <==> (k == i && Inside(points, reference, radius2, i)) || k in rest;
      }
    }
  }

  function Markers(n: nat, marker: nat): seq<nat> {
    seq(n, _ => marker)
  }

  lemma {:induction false} InsertMarker(b: seq<nat>, n: nat, marker: nat)
    requires forall k | 0 <= k < |b| :: b[k] < marker
    ensures Insert(marker, b + Markers(n, marker)) == b + Markers(n + 1, marker)
  {
    if b == [] {
      assert b + Markers(n, marker) == Markers(n, marker);
      assert [marker] + Markers(n, marker) == Markers(n + 1, marker);
    } else {
      InsertMarker(b[1..], n, marker);
      var s := b + Markers(n, marker);
      assert s[0] == b[0] && s[1..] == b[1..] + Markers(n, marker);
      assert b == [b[0]] + b[1..];
    }
  }

  /** Sorting the marked candidates brings the in-ball indices to the front. */
  lemma {:induction false} SortedCandidates(points: Cloud, reference: Point, radius2: real, i: nat)
    requires i <= |points|
    ensures var b := Ball(points, reference, radius2, i);
      Sort(Candidates(points, reference, radius2)[i..]) ==
        b + Markers(|points| - i - |b|, |points|)
    decreases |points| - i
  {
    hide Inside, Insert, Sort;
    if i < |points| {
      SortedCandidates(points, reference, radius2, i + 1);
      var marked := Candidates(points, reference, radius2);
      var x, rest := marked[i], marked[i + 1..];
      assert x == if Inside(points, reference, radius2, i) then i else |points|;
      assert marked[i..] == [x] + rest;
      hide Candidates, Markers;
      var b := Ball(points, reference, radius2, i + 1);
      SortedMore(x, rest, b, |points| - (i + 1) - |b|, |points|);
    } else {
      hide Ball;
      SortNothing(Candidates(points, reference, radius2)[i..]);
    }
  }

  lemma SortNothing(s: seq<nat>)
    requires s == []
    ensures Sort(s) == []
  {
  }

  /** One more candidate, in the ball before all others or marked. */
  lemma SortedMore(x: nat, rest: seq<nat>, b: seq<nat>, n: nat, marker: nat)
    requires Sort(rest) == b + Markers(n, marker)
    requires x <= marker && forall k | 0 <= k < |b| :: x <= b[k] < marker || x == marker > b[k]
    ensures Sort([x] + rest) == if x == marker then b + Markers(n + 1, marker)
                                else [x] + b + Markers(n, marker)
  {
    hide Insert, Sort;
    SortCons(x, rest);
    if x == marker {
      InsertMarker(b, n, marker);
    } else {
      InsertFront(x, b + Markers(n, marker));
      assert [x] + (b + Markers(n, marker)) == [x] + b + Markers(n, marker);
    }
  }

  lemma SortCons(x: nat, rest: seq<nat>)
    ensures Sort([x] + rest) == Insert(x, Sort(rest))
  {
    assert ([x] + rest)[1..] == rest;
  }

  lemma InsertFront(x: nat, s: seq<nat>)
    requires s == [] || x <= s[0]
    ensures Insert(x, s) == [x] + s
  {
  }

  /** A neighbour list is the ascending prefix of the in-ball indices, padded with
      the first of them (and with 0 when the ball is empty). */
  lemma NeighboursArePaddedPrefix(points: Cloud, reference: Point, radius2: real, count: nat)
    requires 0 < count <= |points|
    ensures var b := Ball(points, reference, radius2, 0);
      Neighbours(points, reference, radius2, count) ==
        seq(count, j requires 0 <= j < count =>
          if j < |b| then b[j] else if b == [] then 0 else b[0])
  {
    hide Inside;
    var marked := Candidates(points, reference, radius2);
    SortedCandidates(points, reference, radius2, 0);
    assert marked[0..] == marked;
    var b := Ball(points, reference, radius2, 0);
    var selected := TopK(marked, count);
    assert selected == (b + Markers(|points| - |b|, |points|))[..count];
    forall j | 0 <= j < count
      ensures selected[j] == if j < |b| then b[j] else |points|
    {
    }
  }

  /** The "no neighbour, use 0" case cannot arise for a reference that is itself a
      cloud point: it lies in its own ball. */
  lemma OwnBallIsNotEmpty(points: Cloud, i: nat, radius: real)
    requires i < |points| && radius != 0.0
    ensures i in Ball(points, points[i], radius * radius, 0)
  {
    hide Distance2;
    assert 0.0 < SquareOf(radius) == radius * radius;
    BallIsExact(points, points[i], radius * radius, 0);
  }

  // --------------------------------------------------- gathering and grouping

  type Channels = seq<seq<real>>

  predicate Rectangular(features: Channels, n: nat) {
    forall c | 0 <= c < |features| :: |features[c]| == n
  }

  function Transposed(points: Cloud): (r: Channels)
    ensures Rectangular(r, |points|) && |r| == 3
  {
    [seq(|points|, i requires 0 <= i < |points| => points[i].x),
     seq(|points|, i requires 0 <= i < |points| => points[i].y),
     seq(|points|, i requires 0 <= i < |points| => points[i].z)]
  }

  function Gather(features: Channels, n: nat, indices: seq<nat>): (r: Channels)
    requires Rectangular(features, n) && Within(indices, n)
    ensures |r| == |features| && Rectangular(r, |indices|)
  {
    seq(|features|, c requires 0 <= c < |features| =>
      seq(|indices|, i requires 0 <= i < |indices| => features[c][indices[i]]))
  }

  function Untransposed(features: Channels, n: nat): (r: Cloud)
    requires |features| == 3 && Rectangular(features, n)
    ensures |r| == n
  {
    seq(n, i requires 0 <= i < n => Point(features[0][i], features[1][i], features[2][i]))
  }

  /** indices.reshape(batch, 1, references * neighbours) on one cloud */
  function Flatten(indices: seq<seq<nat>>): seq<nat> {
    if indices == [] then [] else indices[0] + Flatten(indices[1..])
  }

  /** The inverse reshape, rows of width k. */
  function Rows(flat: seq<real>, k: nat): seq<seq<real>>
    requires 0 < k
    decreases |flat|
  {
    if |flat| < k then [] else [flat[..k]] + Rows(flat[k..], k)
  }

  /** _group_points on one cloud: flatten the index table, gather, reshape back. */
  function GroupPoints(features: Channels, n: nat, indices: seq<seq<nat>>, k: nat): seq<seq<seq<real>>>
    requires Rectangular(features, n) && 0 < k && Within(Flatten(indices), n)
  {
    var flat := Gather(features, n, Flatten(indices));
    seq(|flat|, c requires 0 <= c < |flat| => Rows(flat[c], k))
  }

  function Pick(row: seq<real>, indices: seq<nat>): seq<real>
    requires Within(indices, |row|)
  {
    seq(|indices|, i requires 0 <= i < |indices| => row[indices[i]])
  }

  lemma {:induction false} FlattenWithin(indices: seq<seq<nat>>, n: nat)
    requires forall r | 0 <= r < |indices| :: Within(indices[r], n)
    ensures Within(Flatten(indices), n)
  {
    if indices != [] {
      FlattenWithin(indices[1..], n);
    }
  }

  lemma {:induction false} RowsOfFlatten(row: seq<real>, indices: seq<seq<nat>>, k: nat)
    requires 0 < k && forall r | 0 <= r < |indices| :: |indices[r]| == k && Within(indices[r], |row|)
    ensures Within(Flatten(indices), |row|)
    ensures Rows(Pick(row, Flatten(indices)), k) ==
      seq(|indices|, r requires 0 <= r < |indices| => Pick(row, indices[r]))
  {
    FlattenWithin(indices, |row|);
    if indices != [] {
      RowsOfFlatten(row, indices[1..], k);
      var flat := Pick(row, Flatten(indices));
      assert flat[..k] == Pick(row, indices[0]);
      assert flat[k..] == Pick(row, Flatten(indices[1..]));
      var rows := seq(|indices|, r requires 0 <= r < |indices| => Pick(row, indices[r]));
      assert rows[1..] == Rows(flat[k..], k);
      assert rows == [rows[0]] + rows[1..];
    }
  }

  /** Flatten, gather and reshape together are a plain table lookup. */
  lemma GroupingIsLookup(features: Channels, n: nat, indices: seq<seq<nat>>, k: nat)
    requires Rectangular(features, n) && 0 < k
    requires forall r | 0 <= r < |indices| :: |indices[r]| == k && Within(indices[r], n)
    ensures Within(Flatten(indices), n)
    ensures GroupPoints(features, n, indices, k) ==
      seq(|features|, c requires 0 <= c < |features| =>
        seq(|indices|, r requires 0 <= r < |indices| => Pick(features[c], indices[r])))
  {
    FlattenWithin(indices, n);
    forall c | 0 <= c < |features|
      ensures GroupPoints(features, n, indices, k)[c] ==
        seq(|indices|, r requires 0 <= r < |indices| => Pick(features[c], indices[r]))
    {
      RowsOfFlatten(features[c], indices, k);
      assert Gather(features, n, Flatten(indices))[c] == Pick(features[c], Flatten(indices));
    }
  }

  lemma GatherIsSelection(points: Cloud, indices: seq<nat>)
    requires Within(indices, |points|)
    ensures Untransposed(Gather(Transposed(points), |points|, indices), |indices|) ==
      seq(|indices|, i requires 0 <= i < |indices| => points[indices[i]])
  {
  }
}
