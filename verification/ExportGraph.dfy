/** The stem of the published model and the fixed one-camera export graph: sampling,
    ball query and grouping, each written out as its own code computes it, and their
    agreement through one reference definition. */
module ExportGraph {
  import opened PointCloud
  import opened FurthestPoint
  import opened Grouping

  const FRAMES := 3
  const POINTS := 4096
  const REFERENCES := 128
  const NEIGHBORS := 32
  const RADIUS := 0.2
  const STRIDE := 32

  /** What the stem selects on one cloud: reference indices, neighbour indices per
      reference, and the grouped coordinates (channel, reference, neighbour). */
  datatype Stem = Stem(
    references: seq<nat>,
    neighbours: seq<seq<nat>>,
    grouped: seq<seq<seq<real>>>)

  function PointsAt(points: Cloud, indices: seq<nat>): (r: Cloud)
    requires Within(indices, |points|)
    ensures |r| == |indices|
  {
    seq(|indices|, i requires 0 <= i < |indices| => points[indices[i]])
  }

  lemma NeighboursWithin(points: Cloud, reference: Point, radius2: real, count: nat)
    requires 0 < count <= |points|
    ensures Within(Neighbours(points, reference, radius2, count), |points|)
  {
    NeighboursArePaddedPrefix(points, reference, radius2, count);
  }

  lemma BallQueryWithin(points: Cloud, references: seq<Point>, radius: real, count: nat)
    requires 0 < count <= |points|
    ensures forall r | 0 <= r < |references| ::
      Within(BallQuery(points, references, radius, count)[r], |points|)
  {
    forall r | 0 <= r < |references|
      ensures Within(BallQuery(points, references, radius, count)[r], |points|)
    {
      NeighboursWithin(points, references[r], radius * radius, count);
    }
  }

  /** neighbours is the ascending prefix of the in-ball indices, padded with the
      first of them. */
  ghost predicate IsPaddedPrefix(points: Cloud, reference: Point, radius2: real, count: nat,
                                 neighbours: seq<nat>)
  {
    var b := Ball(points, reference, radius2, 0);
    && b != []
    && |neighbours| == count && Within(neighbours, |points|)
    && forall j | 0 <= j < count :: neighbours[j] == if j < |b| then b[j] else b[0]
  }

  /** grouped[c][r][j] is coordinate c of the j-th neighbour of reference r. */
  ghost predicate IsLookup(points: Cloud, neighbours: seq<seq<nat>>, grouped: seq<seq<seq<real>>>)
    requires forall r | 0 <= r < |neighbours| :: Within(neighbours[r], |points|)
  {
    && |grouped| == 3
    && forall c | 0 <= c < 3 ::
      && |grouped[c]| == |neighbours|
      && forall r | 0 <= r < |neighbours| ::
        grouped[c][r] == Pick(Transposed(points)[c], neighbours[r])
  }

  ghost predicate AreNeighbours(points: Cloud, references: seq<nat>, radius: real, count: nat,
                                neighbours: seq<seq<nat>>)
    requires Within(references, |points|)
  {
    && |neighbours| == |references|
    && (forall r | 0 <= r < |references| ::
          IsPaddedPrefix(points, points[references[r]], radius * radius, count, neighbours[r]))
    && forall r | 0 <= r < |references| :: Within(neighbours[r], |points|)
  }

  /** The reference definition of the stem. */
  ghost predicate IsStem(points: Cloud, references: nat, radius: real, count: nat, stem: Stem)
    requires 0 < references && points != []
  {
    && stem.references == Selection(points, references)
    && AreNeighbours(points, stem.references, radius, count, stem.neighbours)
    && IsLookup(points, stem.neighbours, stem.grouped)
  }

  /** The tensor expressions after the sampling loop, on one cloud. */
  function GroupAround(points: Cloud, references: seq<nat>, radius: real, count: nat): Stem
    requires Within(references, |points|) && 0 < count <= |points|
  {
    var transposed := Transposed(points);
    var centers := Untransposed(Gather(transposed, |points|, references), |references|);
    var neighbours := BallQuery(points, centers, radius, count);
    BallQueryWithin(points, centers, radius, count);
    FlattenWithin(neighbours, |points|);
    Stem(references, neighbours, GroupPoints(transposed, |points|, neighbours, count))
  }

  lemma GroupAroundIsStem(points: Cloud, references: nat, radius: real, count: nat)
    requires 0 < references <= |points| && 0 < count <= |points| && radius != 0.0
    ensures IsStem(points, references, radius, count,
                   GroupAround(points, Selection(points, references), radius, count))
  {
    hide Distance2, Selection, Ball, Neighbours, Inside;
    hide GroupPoints, Flatten, Transposed;
    var chosen := Selection(points, references);
    var stem := GroupAround(points, chosen, radius, count);
    GatherIsSelection(points, chosen);
    var centers := PointsAt(points, chosen);
    assert stem.neighbours == BallQuery(points, centers, radius, count);
    forall r | 0 <= r < references
      ensures IsPaddedPrefix(points, points[chosen[r]], radius * radius, count, stem.neighbours[r])
    {
      NeighboursArePaddedPrefix(points, centers[r], radius * radius, count);
      OwnBallIsNotEmpty(points, chosen[r], radius);
      NeighboursWithin(points, centers[r], radius * radius, count);
    }
    GroupingIsLookup(Transposed(points), |points|, stem.neighbours, count);
  }

  datatype StemResult = Stems(stems: seq<Stem>) | Rejected

  /** PointSpatialConv.forward up to the grouped neighbours, on a batch of clouds. */
  method PointSpatialConv(clouds: seq<Cloud>, pointCount: nat, radius: real, count: nat, stride: nat)
    returns (r: StemResult)
    requires forall b | 0 <= b < |clouds| :: |clouds[b]| == pointCount
    requires 0 < count <= pointCount && 0 < stride
    ensures r.Rejected? <==> pointCount < stride
    ensures r.Stems? ==> |r.stems| == |clouds|
    ensures r.Stems? ==> forall b | 0 <= b < |clouds| ::
      r.stems[b] == GroupAround(clouds[b], Selection(clouds[b], pointCount / stride), radius, count)
  {
    var referenceCount := pointCount / stride;
    Quotient(pointCount, stride);
    var sampling := FurthestPointSample(clouds, pointCount, referenceCount);
    if sampling.InvalidShape? {
      return Rejected;
    }
    hide GroupAround, Selection;
    r := Stems(GroupAll(clouds, sampling.indices, radius, count));
  }

  lemma Quotient(n: nat, d: nat)
    requires 0 < d
    ensures 0 <= n / d <= n
    ensures n < d <==> n / d == 0
  {
    var q := n / d;
    assert n == d * q + n % d && 0 <= n % d < d;
    if 1 <= q {
      MultiplyUp(d, q);
    }
  }

  lemma MultiplyUp(d: int, q: int)
    requires 1 <= d && 1 <= q
    ensures d <= d * q && q <= d * q
  {
    assert 0 <= (d - 1) * (q - 1);
    assert (d - 1) * (q - 1) == d * q - d - q + 1;
  }

  function GroupAll(clouds: seq<Cloud>, indices: seq<seq<nat>>, radius: real, count: nat): (r: seq<Stem>)
    requires |indices| == |clouds| && 0 < count
    requires forall b | 0 <= b < |clouds| :: count <= |clouds[b]| && Within(indices[b], |clouds[b]|)
    ensures |r| == |clouds|
  {
    seq(|clouds|, b requires 0 <= b < |clouds| => GroupAround(clouds[b], indices[b], radius, count))
  }

  // ----------------------------------------------------- the fixed export graph

  /** Position (i, j) of an n by k table in the flattened table. */
  function Cell(i: nat, j: nat, n: nat, k: nat): (m: nat)
    requires i < n && j < k
    ensures m < n * k && m / k == i && m % k == j
  {
    CellBounds(i, j, n, k);
    i * k + j
  }

  lemma CellBounds(i: nat, j: nat, n: nat, k: nat)
    requires i < n && j < k
    ensures i * k + j < n * k && (i * k + j) / k == i && (i * k + j) % k == j
  {
    assert (i + 1) * k <= n * k;
    var q, r := (i * k + j) / k, (i * k + j) % k;
    assert k * q + r == k * i + j;
    SameQuotient(k, q, i, r, j);
  }

  lemma SameQuotient(k: nat, q: int, i: int, r: nat, j: nat)
    requires k * q + r == k * i + j && r < k && j < k
    ensures q == i && r == j
  {
    if q < i {
      ProductUp(k, q + 1, i);
    } else if i < q {
      ProductUp(k, i + 1, q);
    }
  }

  lemma ProductUp(k: nat, a: int, b: int)
    requires a <= b
    ensures k * a <= k * b
  {
  }

  /** Where an index of the flattened table lies. */
  lemma CellOf(m: nat, n: nat, k: nat)
    requires 0 < k && m < n * k
    ensures m / k < n && m % k < k
  {
    var q, r := m / k, m % k;
    assert m == k * q + r;
    if n <= q {
      ProductUp(k, n, q);
    }
  }

  /** The masked index row of one reference. */
  function ExportCandidates(points: Cloud, reference: Point, radius2: real): (r: seq<nat>)
    ensures |r| == |points|
  {
    var distanceSquared := seq(|points|, j requires 0 <= j < |points| =>
      SquareOf(reference.x - points[j].x) + SquareOf(reference.y - points[j].y) + SquareOf(reference.z - points[j].z));
    var inside := seq(|points|, j requires 0 <= j < |points| => distanceSquared[j] < radius2);
    seq(|points|, j requires 0 <= j < |points| => if !inside[j] then |points| else j)
  }

  /** The export's neighbour indices of one reference: top-k and two selections. */
  function ExportNeighbours(points: Cloud, reference: Point, radius2: real, k: nat): (r: seq<nat>)
    requires 0 < k <= |points|
    ensures |r| == k
  {
    var selected := TopK(ExportCandidates(points, reference, radius2), k);
    var first := if selected[0] == |points| then 0 else selected[0];
    seq(k, j requires 0 <= j < k => if selected[j] == |points| then first else selected[j])
  }

  /** The index table as one row. */
  function FlatTable(selected: seq<seq<nat>>, n: nat, k: nat): (r: seq<nat>)
    requires 0 < k && forall i | 0 <= i < |selected| :: |selected[i]| == k && Within(selected[i], n)
    ensures |r| == |selected| * k && Within(r, n)
  {
    seq(|selected| * k, m requires 0 <= m < |selected| * k => EntryAt(selected, n, k, m))
  }

  function EntryAt(selected: seq<seq<nat>>, n: nat, k: nat, m: nat): (e: nat)
    requires 0 < k && forall i | 0 <= i < |selected| :: |selected[i]| == k && Within(selected[i], n)
    requires m < |selected| * k
    ensures e < n
  {
    CellOf(m, |selected|, k);
    assert Within(selected[m / k], n);
    selected[m / k][m % k]
  }

  lemma FlatTableCell(selected: seq<seq<nat>>, n: nat, k: nat, i: nat, j: nat)
    requires 0 < k && forall i | 0 <= i < |selected| :: |selected[i]| == k && Within(selected[i], n)
    requires i < |selected| && j < k
    ensures FlatTable(selected, n, k)[Cell(i, j, |selected|, k)] == selected[i][j]
  {
    var m := Cell(i, j, |selected|, k);
    hide Cell;
    assert FlatTable(selected, n, k)[m] == EntryAt(selected, n, k, m);
  }

  /** One gather per channel along the row, and the row as a table again. */
  function ExportGrouped(channels: Channels, n: nat, selected: seq<seq<nat>>, k: nat): (r: seq<seq<seq<real>>>)
    requires Rectangular(channels, n) && |channels| == 3 && 0 < k
    requires forall i | 0 <= i < |selected| :: |selected[i]| == k && Within(selected[i], n)
    ensures |r| == 3
  {
    var flat := FlatTable(selected, n, k);
    var gathered := seq(3, c requires 0 <= c < 3 =>
      seq(|flat|, m requires 0 <= m < |flat| => channels[c][flat[m]]));
    seq(3, c requires 0 <= c < 3 =>
      seq(|selected|, i requires 0 <= i < |selected| =>
        seq(k, j requires 0 <= j < k => gathered[c][Cell(i, j, |selected|, k)])))
  }

  function ExportSelected(points: Cloud, centers: Cloud, radius2: real, k: nat): (r: seq<seq<nat>>)
    requires 0 < k <= |points|
    ensures |r| == |centers|
  {
    seq(|centers|, i requires 0 <= i < |centers| => ExportNeighbours(points, centers[i], radius2, k))
  }

  /** The reference coordinates by one gather per channel, transposed back. */
  function ExportCenters(channels: Channels, n: nat, references: seq<nat>): (r: Cloud)
    requires Rectangular(channels, n) && |channels| == 3 && Within(references, n)
    ensures |r| == |references|
  {
    var gathered := seq(3, c requires 0 <= c < 3 =>
      seq(|references|, i requires 0 <= i < |references| => channels[c][references[i]]));
    seq(|references|, i requires 0 <= i < |references| =>
      Point(gathered[0][i], gathered[1][i], gathered[2][i]))
  }

  lemma ExportNeighboursArePrefix(points: Cloud, i: nat, radius: real, k: nat)
    requires 0 < k <= |points| && i < |points| && radius != 0.0
    ensures IsPaddedPrefix(points, points[i], radius * radius, k,
                           ExportNeighbours(points, points[i], radius * radius, k))
    ensures Within(ExportNeighbours(points, points[i], radius * radius, k), |points|)
  {
    var reference := points[i];
    ExportCandidatesAreCandidates(points, reference, radius * radius);
    NeighboursArePaddedPrefix(points, reference, radius * radius, k);
    OwnBallIsNotEmpty(points, i, radius);
    NeighboursWithin(points, reference, radius * radius, k);
    hide TopK, Ball, ExportCandidates, Candidates;
    assert ExportNeighbours(points, reference, radius * radius, k) ==
           Neighbours(points, reference, radius * radius, k);
  }

  lemma ExportCandidatesAreCandidates(points: Cloud, reference: Point, radius2: real)
    ensures ExportCandidates(points, reference, radius2) == Candidates(points, reference, radius2)
  {
    hide SquareOf;
  }

  lemma ExportGroupedIsLookup(points: Cloud, selected: seq<seq<nat>>, k: nat)
    requires 0 < k && forall i | 0 <= i < |selected| :: |selected[i]| == k && Within(selected[i], |points|)
    ensures IsLookup(points, selected, ExportGrouped(Transposed(points), |points|, selected, k))
  {
    hide Transposed, FlatTable, Cell;
    var channels := Transposed(points);
    var grouped := ExportGrouped(channels, |points|, selected, k);
    forall c, i | 0 <= c < 3 && 0 <= i < |selected|
      ensures grouped[c][i] == Pick(channels[c], selected[i])
    {
      forall j | 0 <= j < k
        ensures grouped[c][i][j] == channels[c][selected[i][j]]
      {
        FlatTableCell(selected, |points|, k, i, j);
      }
    }
  }

  const RADIUS_SQUARED := 0.2 * 0.2

  /** Everything after the sampling loop, on one cloud. */
  function ExportStem(points: Cloud, references: seq<nat>, k: nat): Stem
    requires Within(references, |points|) && 0 < k <= |points|
  {
    var transposed := Transposed(points);
    var centers := ExportCenters(transposed, |points|, references);
    CentersArePoints(points, references);
    var selected := ExportSelected(points, centers, RADIUS_SQUARED, k);
    SelectedIsWithin(points, references, RADIUS, k);
    Stem(references, selected, ExportGrouped(transposed, |points|, selected, k))
  }

  lemma CentersArePoints(points: Cloud, references: seq<nat>)
    requires Within(references, |points|)
    ensures ExportCenters(Transposed(points), |points|, references) == PointsAt(points, references)
  {
  }

  lemma SelectedIsWithin(points: Cloud, references: seq<nat>, radius: real, k: nat)
    requires Within(references, |points|) && 0 < k <= |points| && radius != 0.0
    ensures var selected := ExportSelected(points, PointsAt(points, references), radius * radius, k);
      && AreNeighbours(points, references, radius, k, selected)
      && forall r | 0 <= r < |selected| :: |selected[r]| == k && Within(selected[r], |points|)
  {
    hide ExportNeighbours, IsPaddedPrefix;
    var selected := ExportSelected(points, PointsAt(points, references), radius * radius, k);
    forall r | 0 <= r < |references|
      ensures IsPaddedPrefix(points, points[references[r]], radius * radius, k, selected[r])
      ensures Within(selected[r], |points|)
    {
      ExportNeighboursArePrefix(points, references[r], radius, k);
    }
  }

  lemma ExportStemIsStem(points: Cloud)
    requires NEIGHBORS <= |points| && REFERENCES <= |points|
    ensures IsStem(points, REFERENCES, RADIUS, NEIGHBORS, ExportStem(points, Selection(points, REFERENCES), NEIGHBORS))
  {
    hide Selection;
    ExportStemFits(points, Selection(points, REFERENCES), NEIGHBORS);
    hide ExportStem, AreNeighbours, IsLookup;
  }

  lemma ExportStemFits(points: Cloud, references: seq<nat>, k: nat)
    requires Within(references, |points|) && 0 < k <= |points|
    ensures var stem := ExportStem(points, references, k);
      && stem.references == references
      && AreNeighbours(points, references, RADIUS, k, stem.neighbours)
      && (forall r | 0 <= r < |stem.neighbours| :: Within(stem.neighbours[r], |points|))
      && IsLookup(points, stem.neighbours, stem.grouped)
  {
    hide ExportSelected, ExportGrouped, ExportCenters, AreNeighbours, IsLookup, Transposed, PointsAt, Within;
    CentersArePoints(points, references);
    SelectedIsWithin(points, references, RADIUS, k);
    var selected := ExportSelected(points, PointsAt(points, references), RADIUS_SQUARED, k);
    ExportGroupedIsLookup(points, selected, k);
    assert ExportStem(points, references, k) ==
           Stem(references, selected, ExportGrouped(Transposed(points), |points|, selected, k));
  }

  /** The reference definition leaves no choice. */
  lemma StemIsUnique(points: Cloud, references: nat, radius: real, count: nat, a: Stem, b: Stem)
    requires 0 < references && points != []
    requires IsStem(points, references, radius, count, a) && IsStem(points, references, radius, count, b)
    ensures a == b
  {
    hide Selection, Ball, Transposed, Pick;
    forall r | 0 <= r < |a.neighbours|
      ensures a.neighbours[r] == b.neighbours[r]
    {
      assert IsPaddedPrefix(points, points[a.references[r]], radius * radius, count, a.neighbours[r]);
      assert IsPaddedPrefix(points, points[b.references[r]], radius * radius, count, b.neighbours[r]);
    }
    assert a.neighbours == b.neighbours;
    forall c | 0 <= c < 3
      ensures a.grouped[c] == b.grouped[c]
    {
    }
  }

  /** FixedPrimaryExport.forward up to the grouped neighbours. */
  method FixedPrimaryExport(frames: seq<Cloud>) returns (stems: seq<Stem>)
    requires |frames| == FRAMES && forall b | 0 <= b < FRAMES :: |frames[b]| == POINTS
    ensures |stems| == FRAMES
    ensures forall b | 0 <= b < FRAMES :: IsStem(frames[b], REFERENCES, RADIUS, NEIGHBORS, stems[b])
    ensures forall b | 0 <= b < FRAMES :: IsPublishedStem(frames[b], stems[b])
  {
    hide ExportStem, IsStem, IsPublishedStem, FirstArgMax, Valid;
    var valid := seq(FRAMES, b requires 0 <= b < FRAMES => ValidMask(frames[b]));
    var minimum := seq(FRAMES, _ => seq(POINTS, _ => CAP));
    var farthest: seq<nat> := seq(FRAMES, _ => 0);
    var choices := [farthest];
    forall b | 0 <= b < FRAMES
      ensures ChoiceColumn(choices, b) == Selection(frames[b], 1)
      ensures TracksNear(frames[b], Selection(frames[b], 1)[..0], minimum[b])
    {
      assert Selection(frames[b], 1) == [0];
    }
    for round := 1 to REFERENCES
      invariant ExportInv(frames, round, choices, minimum, farthest)
    {
      ExportRound(frames, round, valid, choices, minimum, farthest);
      minimum := NextMinimum(frames, minimum, farthest);
      farthest := NextFarthest(frames, minimum, valid);
      choices := choices + [farthest];
    }
    var references := seq(FRAMES, b requires 0 <= b < FRAMES && Stackable(choices) =>
      ChoiceColumn(choices, b));
    hide Selection;
    stems := seq(FRAMES, b requires 0 <= b < FRAMES && Within(references[b], POINTS) =>
      ExportStem(frames[b], references[b], NEIGHBORS));
    forall b | 0 <= b < FRAMES
      ensures IsStem(frames[b], REFERENCES, RADIUS, NEIGHBORS, stems[b])
    {
      ExportStemIsStem(frames[b]);
    }
    forall b | 0 <= b < FRAMES
      ensures IsPublishedStem(frames[b], stems[b])
    {
      StemIsPublished(frames[b], stems[b]);
    }
  }

  predicate Stackable(choices: seq<seq<nat>>) {
    forall k | 0 <= k < |choices| :: |choices[k]| == FRAMES
  }

  /** torch.stack(choices, dim=1)[b] */
  function ChoiceColumn(choices: seq<seq<nat>>, b: nat): (r: seq<nat>)
    requires Stackable(choices) && b < FRAMES
    ensures |r| == |choices|
  {
    seq(|choices|, k requires 0 <= k < |choices| => choices[k][b])
  }

  ghost predicate ExportInv(frames: seq<Cloud>, round: nat, choices: seq<seq<nat>>,
                            minimum: seq<seq<real>>, farthest: seq<nat>)
    requires |frames| == FRAMES && 0 < round
    requires forall b | 0 <= b < FRAMES :: |frames[b]| == POINTS
  {
    && |minimum| == |farthest| == FRAMES && |choices| == round && Stackable(choices)
    && forall b | 0 <= b < FRAMES ::
      && ChoiceColumn(choices, b) == Selection(frames[b], round)
      && farthest[b] == Selection(frames[b], round)[round - 1]
      && TracksNear(frames[b], Selection(frames[b], round)[..round - 1], minimum[b])
  }

  lemma ExportRound(frames: seq<Cloud>, round: nat, valid: seq<seq<bool>>,
                    choices: seq<seq<nat>>, minimum: seq<seq<real>>, farthest: seq<nat>)
    requires |frames| == FRAMES && 0 < round
    requires forall b | 0 <= b < FRAMES :: |frames[b]| == POINTS
    requires ExportInv(frames, round, choices, minimum, farthest)
    requires |valid| == FRAMES
    requires forall b | 0 <= b < FRAMES :: valid[b] == ValidMask(frames[b]) && |valid[b]| == POINTS
    ensures var minimum' := NextMinimum(frames, minimum, farthest);
      var farthest' := NextFarthest(frames, minimum', valid);
      ExportInv(frames, round + 1, choices + [farthest'], minimum', farthest')
  {
    hide FirstArgMax, Valid, Selection;
    var minimum' := NextMinimum(frames, minimum, farthest);
    var farthest' := NextFarthest(frames, minimum', valid);
    var choices' := choices + [farthest'];
    forall b | 0 <= b < FRAMES
      ensures ChoiceColumn(choices', b) == Selection(frames[b], round + 1)
      ensures farthest'[b] == Selection(frames[b], round + 1)[round]
      ensures TracksNear(frames[b], Selection(frames[b], round + 1)[..round], minimum'[b])
    {
      RoundIsNextChoice(frames[b], round, minimum[b]);
      SelectionPrefix(frames[b], round + 1, round);
      assert ChoiceColumn(choices', b) == ChoiceColumn(choices, b) + [farthest'[b]];
      assert Selection(frames[b], round + 1) ==
        Selection(frames[b], round + 1)[..round] + [Selection(frames[b], round + 1)[round]];
    }
  }

  // --------------------------------------------------- the stem without its code

  ghost predicate InBall(points: Cloud, center: Point, i: int) {
    0 <= i < |points| && Euclidean2(center, points[i]) < 0.04
  }

  /** The first m entries are the first m points within 0.2 m, ascending, all of them unless that
      is 32; the others repeat the first. */
  ghost predicate IsBallPrefix(points: Cloud, center: Point, neighbours: seq<nat>, m: nat) {
    && |neighbours| == 32 && 0 < m <= 32
    && (forall j | 0 <= j < m :: InBall(points, center, neighbours[j]))
    && (forall j, k | 0 <= j < k < m :: neighbours[j] < neighbours[k])
    && (forall j | m <= j < 32 :: neighbours[j] == neighbours[0])
    && forall i | InBall(points, center, i) :: i in neighbours[..m] || (m == 32 && neighbours[31] < i)
  }

  ghost predicate IsBallPrefixOfSome(points: Cloud, center: Point, neighbours: seq<nat>) {
    exists m: nat :: IsBallPrefix(points, center, neighbours, m)
  }

  function Coordinate(p: Point, c: nat): real {
    if c == 0 then p.x else if c == 1 then p.y else p.z
  }

  /** 128 greedy references, the neighbours of each within 0.2 m, and their coordinates. */
  ghost predicate IsPublishedStem(points: Cloud, stem: Stem) {
    && |stem.references| == 128 && Within(stem.references, |points|)
    && (Moderate(points) ==> IsGreedy(points, stem.references))
    && |stem.neighbours| == 128 && |stem.grouped| == 3
    && (forall r | 0 <= r < 128 :: IsBallPrefixOfSome(points, points[stem.references[r]], stem.neighbours[r]))
    && (forall c | 0 <= c < 3 :: |stem.grouped[c]| == 128)
    && forall c, r | 0 <= c < 3 && 0 <= r < 128 :: IsRow(points, stem.neighbours[r], stem.grouped[c][r], c)
  }

  ghost predicate IsRow(points: Cloud, neighbours: seq<nat>, row: seq<real>, c: nat) {
    && |row| == |neighbours| == 32 && Within(neighbours, |points|)
    && forall j | 0 <= j < 32 :: row[j] == Coordinate(points[neighbours[j]], c)
  }

  /** b lists the points of the ball. */
  ghost predicate ListsBall(points: Cloud, center: Point, b: seq<nat>) {
    && (forall j, k | 0 <= j < k < |b| :: b[j] < b[k])
    && (forall k | 0 <= k < |b| :: InBall(points, center, b[k]))
    && forall i | InBall(points, center, i) :: i in b
  }

  lemma BallListsBall(points: Cloud, center: Point)
    ensures ListsBall(points, center, Ball(points, center, RADIUS * RADIUS, 0))
  {
    var b := Ball(points, center, RADIUS * RADIUS, 0);
    BallIsExact(points, center, RADIUS * RADIUS, 0);
    hide Ball, Inside, Euclidean2;
    forall i | 0 <= i < |points|
      ensures i in b <==> InBall(points, center, i)
    {
      InsideIsEuclidean(points, center, RADIUS * RADIUS, i);
    }
  }

  lemma PrefixOfList(points: Cloud, center: Point, b: seq<nat>, neighbours: seq<nat>)
    requires ListsBall(points, center, b) && b != [] && |neighbours| == 32
    requires forall j | 0 <= j < 32 :: neighbours[j] == if j < |b| then b[j] else b[0]
    ensures IsBallPrefixOfSome(points, center, neighbours)
  {
    hide InBall;
    var m := if |b| < 32 then |b| else 32;
    forall i | InBall(points, center, i)
      ensures i in neighbours[..m] || (m == 32 && neighbours[31] < i)
    {
      var k :| 0 <= k < |b| && b[k] == i;
      if k < m {
        assert neighbours[..m][k] == i;
      }
    }
    assert IsBallPrefix(points, center, neighbours, m);
  }

  lemma PrefixIsBall(points: Cloud, center: Point, neighbours: seq<nat>)
    requires IsPaddedPrefix(points, center, RADIUS * RADIUS, NEIGHBORS, neighbours)
    ensures IsBallPrefixOfSome(points, center, neighbours)
  {
    hide Ball, ListsBall, IsBallPrefixOfSome;
    BallListsBall(points, center);
    PrefixOfList(points, center, Ball(points, center, RADIUS * RADIUS, 0), neighbours);
  }

  lemma InsideIsEuclidean(points: Cloud, center: Point, radius2: real, i: nat)
    requires i < |points|
    ensures Inside(points, center, radius2, i) <==> Euclidean2(center, points[i]) < radius2
  {
    DistanceIsEuclidean(center, points[i]);
  }

  lemma PickIsRow(points: Cloud, neighbours: seq<nat>, c: nat)
    requires c < 3 && |neighbours| == 32 && Within(neighbours, |points|)
    ensures IsRow(points, neighbours, Pick(Transposed(points)[c], neighbours), c)
  {
  }

  /** What the reference definition means for the published constants. */
  lemma StemIsPublished(points: Cloud, stem: Stem)
    requires points != [] && IsStem(points, REFERENCES, RADIUS, NEIGHBORS, stem)
    ensures IsPublishedStem(points, stem)
  {
    hide Selection, IsGreedy, Moderate, IsPaddedPrefix, IsBallPrefixOfSome, IsRow, Transposed, Pick;
    if Moderate(points) {
      SelectionIsGreedy(points, REFERENCES);
    }
    forall r | 0 <= r < 128
      ensures IsBallPrefixOfSome(points, points[stem.references[r]], stem.neighbours[r])
      ensures |stem.neighbours[r]| == 32
    {
      assert IsPaddedPrefix(points, points[stem.references[r]], RADIUS * RADIUS, NEIGHBORS, stem.neighbours[r]);
      PrefixIsBall(points, points[stem.references[r]], stem.neighbours[r]);
      PrefixLength(points, points[stem.references[r]], stem.neighbours[r]);
    }
    forall c, r | 0 <= c < 3 && 0 <= r < 128
      ensures IsRow(points, stem.neighbours[r], stem.grouped[c][r], c)
    {
      PickIsRow(points, stem.neighbours[r], c);
    }
  }

  lemma PrefixLength(points: Cloud, center: Point, neighbours: seq<nat>)
    requires IsPaddedPrefix(points, center, RADIUS * RADIUS, NEIGHBORS, neighbours)
    ensures |neighbours| == 32
  {
  }

  /** On every three-frame clip the export graph and the model's stem select the same
      references and neighbours and group the same coordinates, and both match the
      reference definition. */
  method CompareGraphs(frames: seq<Cloud>) returns (model: seq<Stem>, exported: seq<Stem>)
    requires |frames| == FRAMES && forall b | 0 <= b < FRAMES :: |frames[b]| == POINTS
    ensures model == exported && |model| == FRAMES
    ensures forall b | 0 <= b < FRAMES ::
      IsStem(frames[b], REFERENCES, RADIUS, NEIGHBORS, model[b]) && IsPublishedStem(frames[b], model[b])
  {
    hide GroupAround, Selection, IsStem, IsPublishedStem;
    var r := PointSpatialConv(frames, POINTS, RADIUS, NEIGHBORS, STRIDE);
    model := r.stems;
    exported := FixedPrimaryExport(frames);
    assert POINTS / STRIDE == REFERENCES;
    forall b | 0 <= b < FRAMES
      ensures IsStem(frames[b], REFERENCES, RADIUS, NEIGHBORS, model[b])
    {
      GroupAroundIsStem(frames[b], REFERENCES, RADIUS, NEIGHBORS);
    }
    forall b | 0 <= b < FRAMES
      ensures model[b] == exported[b]
    {
      StemIsUnique(frames[b], REFERENCES, RADIUS, NEIGHBORS, model[b], exported[b]);
    }
  }
}
