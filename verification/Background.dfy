/** estimate_background: a robust far-depth envelope, pixel by pixel. */
module Background {
  import opened Basics
  import opened Sorting

  /** An array: its shape, and its elements in row order. */
  datatype Depth = Depth(shape: seq<nat>, pixels: seq<nat>)

  datatype Estimate = Background(frame: Depth) | NoFrames | DimensionsDiffer

  function Size(shape: seq<nat>): nat {
    if shape == [] then 1 else shape[0] * Size(shape[1..])
  }

  predicate WellFormed(frames: seq<Depth>) {
    forall f | 0 <= f < |frames| :: |frames[f].pixels| == Size(frames[f].shape)
  }

  /** Images of one size. */
  predicate SameShape(frames: seq<Depth>)
    requires frames != []
  {
    |frames[0].shape| == 2 && forall f | 0 <= f < |frames| :: frames[f].shape == frames[0].shape
  }

  /** How many of the farthest samples must agree: a fifth, at least three, at most
      all of them. */
  function Rank(n: nat): (r: nat)
    requires 0 < n
    ensures 0 < r <= n
  {
    Min(Max(3, (n + 4) / 5), n)
  }

  /** The samples of one pixel over all frames. */
  function Column(frames: seq<Depth>, pixel: nat): (c: seq<nat>)
    requires forall f | 0 <= f < |frames| :: pixel < |frames[f].pixels|
    ensures |c| == |frames|
  {
    seq(|frames|, f requires 0 <= f < |frames| => frames[f].pixels[pixel])
  }

  /** np.partition(values, kth)[kth] */
  function KthSmallest(column: seq<nat>, k: nat): nat
    requires k < |column|
  {
    Sort(column)[k]
  }

  function CountNonZero(column: seq<nat>): nat {
    |column| - CountAtMost(column, 0)
  }

  function PixelBackground(column: seq<nat>): nat
    requires column != []
  {
    var rank := Rank(|column|);
    var background := KthSmallest(column, |column| - rank);
    if rank <= CountNonZero(column) then background else 0
  }

  /** The whole estimate. */
  function EstimateBackground(frames: seq<Depth>): Estimate
    requires WellFormed(frames)
  {
    if frames == [] then NoFrames
    else if |frames[0].shape| != 2 || exists f | 0 <= f < |frames| :: frames[f].shape != frames[0].shape then
      DimensionsDiffer
    else
      var size := |frames[0].pixels|;
      Background(Depth(frames[0].shape, seq(size, p requires 0 <= p < size => PixelBackground(Column(frames, p)))))
  }

  /** The order statistic is non-zero exactly when at least rank samples are valid, so
      the final mask never changes a value. */
  lemma MaskIsRedundant(column: seq<nat>)
    requires column != []
    ensures var rank := Rank(|column|);
      && (KthSmallest(column, |column| - rank) != 0 <==> rank <= CountNonZero(column))
      && PixelBackground(column) == KthSmallest(column, |column| - rank)
  {
    OrderStatistic(column, |column| - Rank(|column|), 0);
  }

  lemma {:induction false} CountMonotone(s: seq<nat>, u: int, v: int)
    requires u <= v
    ensures CountAtMost(s, u) <= CountAtMost(s, v)
  {
    if s != [] {
      CountMonotone(s[..|s| - 1], u, v);
    }
  }

  /** A pixel background d is the largest depth that at least rank samples reach: at
      least rank samples are at d or beyond, and fewer than rank lie beyond d. */
  lemma BackgroundIsFarthestAgreed(column: seq<nat>)
    requires column != []
    ensures var rank, d := Rank(|column|), PixelBackground(column);
      && rank <= |column| - CountAtMost(column, d - 1)
      && |column| - CountAtMost(column, d) < rank
      && d in column
  {
    hide Sort, CountAtMost;
    MaskIsRedundant(column);
    var k, d := |column| - Rank(|column|), PixelBackground(column);
    assert d == Sort(column)[k] by { hide Rank; }
    OrderStatistic(column, k, d);
    var beyond: int := d;
    OrderStatistic(column, k, beyond - 1);
    SortElement(column, k);
  }

  /** If at least rank samples read d and none reads farther, the background is d,
      whatever a performer in front did to the other samples. */
  lemma AgreedFarDepthIsFound(column: seq<nat>, d: nat)
    requires column != [] && Rank(|column|) <= CountEqual(column, d)
    requires forall i | 0 <= i < |column| :: column[i] <= d
    ensures PixelBackground(column) == d
  {
    hide PixelBackground, CountAtMost, CountEqual;
    AllCounted(column, d);
    CountStep(column, d);
    BackgroundIsFarthestAgreed(column);
    var found := PixelBackground(column);
    assert found <= d;
    if found < d {
      CountMonotone(column, found, d - 1);
    }
  }

  /** How many samples are at depth e or beyond. */
  function Reaching(column: seq<nat>, e: nat): nat {
    |column| - CountAtMost(column, e - 1)
  }

  /** How many of n samples must agree: the least number that is a fifth of them, and three unless
      there are fewer. */
  predicate IsQuorum(n: nat, r: nat) {
    IsEnough(n, r) && (r == 0 || !IsEnough(n, r - 1))
  }

  predicate IsEnough(n: nat, r: nat) {
    n <= 5 * r && (3 <= r || n <= r)
  }

  lemma RankIsQuorum(n: nat)
    requires 0 < n
    ensures IsQuorum(n, Rank(n))
  {
  }

  /** d is the largest depth that a quorum of samples reaches, and it is non-zero exactly when a
      quorum of samples is valid. */
  ghost predicate IsFarthestAgreed(column: seq<nat>, d: nat)
    requires column != []
  {
    exists r: nat :: IsQuorum(|column|, r)
      && r <= Reaching(column, d)
      && (forall e: nat | d < e :: Reaching(column, e) < r)
      && (d != 0 <==> r <= Reaching(column, 1))
  }

  lemma PixelIsFarthestAgreed(column: seq<nat>)
    requires column != []
    ensures IsFarthestAgreed(column, PixelBackground(column))
  {
    var d := PixelBackground(column);
    BackgroundIsFarthestAgreed(column);
    MaskIsRedundant(column);
    RankIsQuorum(|column|);
    hide PixelBackground, CountAtMost, KthSmallest, Rank, IsQuorum;
    forall e: nat | d < e
      ensures Reaching(column, e) < Rank(|column|)
    {
      CountMonotone(column, d, e - 1);
    }
  }

  /** The whole result: an error exactly for no frames or for arrays that are not images of one
      size, and otherwise an image of that size whose every pixel is the farthest agreed depth. */
  lemma EstimateIsFarthestAgreed(frames: seq<Depth>)
    requires WellFormed(frames)
    ensures match EstimateBackground(frames)
            case NoFrames => frames == []
            case DimensionsDiffer => frames != [] && !SameShape(frames)
            case Background(b) =>
              && frames != [] && SameShape(frames)
              && b.shape == frames[0].shape && |b.pixels| == Size(b.shape)
              && (forall f | 0 <= f < |frames| :: |frames[f].pixels| == |b.pixels|)
              && forall p | 0 <= p < |b.pixels| :: IsFarthestAgreed(Column(frames, p), b.pixels[p])
  {
    hide PixelBackground, IsFarthestAgreed, Size;
    if frames != [] && SameShape(frames) {
      var b := EstimateBackground(frames).frame;
      forall p | 0 <= p < |b.pixels|
        ensures IsFarthestAgreed(Column(frames, p), b.pixels[p])
      {
        PixelIsFarthestAgreed(Column(frames, p));
      }
    }
  }
}
